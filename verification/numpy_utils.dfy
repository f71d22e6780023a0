/**
 * Heuristics deciding whether a reference denotes a numpy member, and the
 * snippet-based inference functions the numpy brains register for them.
 *
 * Nodes are a tagged union of the kinds the heuristics inspect. Scope lookup,
 * `root()`, the parser and general inference are not modelled: a `NameNode`
 * carries what lookup of its own identifier returns and the name of its root
 * module, and parsing plus inferring a snippet is a function parameter.
 */
module NumpyUtils {
  import opened Wrappers
  import opened Inference
  import opened Strings

  /** One entry of `Import.names`: the imported module and its `as` alias, if any. */
  datatype ImportedName = ImportedName(modname: string, asname: Option<string>)

  /** A node that lookup can return: an `import` statement, or any other kind of assignment. */
  datatype Binding = Import(names: seq<ImportedName>) | OtherBinding

  /**
   * A `Name` node: its identifier, the assignments that `lookup(name)`
   * returns from the node's position, and the name of its root module.
   */
  datatype NameNode = NameNode(name: string, lookupResult: seq<Binding>, rootName: string)

  /** An expression: a `Name`, an `Attribute` access, or any other kind of node. */
  datatype Expr = NameExpr(n: NameNode) | AttributeExpr(a: AttributeNode) | OtherExpr

  /** An `Attribute` node `expr.attrname`. */
  datatype AttributeNode = AttributeNode(attrname: string, expr: Expr)

  // ---------------------------------------------------------------------------
  // Is a name the numpy module?
  // ---------------------------------------------------------------------------

  /** An `import` binding whose names contain `("numpy", nickname)` or `("numpy", None)`. */
  predicate ImportsNumpyAs(b: Binding, nickname: string)
  {
    b.Import? &&
    (ImportedName("numpy", Some(nickname)) in b.names || ImportedName("numpy", None) in b.names)
  }

  /** Whether any of `bindings` is an import of numpy under `nickname`, scanning them in order. */
  function AnyImportsNumpyAs(bindings: seq<Binding>, nickname: string): (r: bool)
    ensures r <==> exists i :: 0 <= i < |bindings| && ImportsNumpyAs(bindings[i], nickname)
    decreases |bindings|
  {
    if |bindings| == 0 then false
    else if ImportsNumpyAs(bindings[0], nickname) then true
    else AnyImportsNumpyAs(bindings[1..], nickname)
  }

  /**
   * `_is_a_numpy_module(node)`: some binding that lookup returns for the
   * name is an `import` listing numpy under that name or without an alias.
   * Every binding counts, not only the innermost one.
   */
  function IsANumpyModule(node: NameNode): (r: bool)
    ensures r <==> exists i :: 0 <= i < |node.lookupResult| && ImportsNumpyAs(node.lookupResult[i], node.name)
  {
    AnyImportsNumpyAs(node.lookupResult, node.name)
  }

  /** Bindings that are not `import` statements are ignored wherever lookup lists them. */
  lemma NonImportBindingsIgnored(node: NameNode, before: seq<Binding>, after: seq<Binding>)
    ensures IsANumpyModule(node.(lookupResult := before + [OtherBinding] + after)) ==
            IsANumpyModule(node.(lookupResult := before + after))
  {
    var withOther := before + [OtherBinding] + after;
    var without := before + after;
    if IsANumpyModule(node.(lookupResult := withOther)) {
      var i :| 0 <= i < |withOther| && ImportsNumpyAs(withOther[i], node.name);
      if i < |before| {
        assert without[i] == withOther[i];
      } else {
        assert without[i - 1] == withOther[i];
      }
    }
    if IsANumpyModule(node.(lookupResult := without)) {
      var i :| 0 <= i < |without| && ImportsNumpyAs(without[i], node.name);
      if i < |before| {
        assert withOther[i] == without[i];
      } else {
        assert withOther[i + 1] == without[i];
      }
    }
  }

  /**
   * The unaliased entry is accepted for every nickname: after
   * `import numpy, scipy`, the name `scipy` resolves to that statement and
   * is taken for numpy.
   */
  lemma SiblingOfUnaliasedNumpyMatches()
    ensures IsANumpyModule(NameNode("scipy", [Import([ImportedName("numpy", None), ImportedName("scipy", None)])], "app"))
  {
  }

  /** The name an import entry binds: its alias, or the module's first dotted component. */
  function BoundName(entry: ImportedName): (r: string)
  {
    match entry.asname
    case Some(alias) => alias
    case None => Split(entry.modname, '.')[0]
  }

  /** The corrected test: an `import` listing numpy under `nickname`, or unaliased when the nickname is `numpy` itself. */
  predicate BindsNumpyAs(b: Binding, nickname: string)
  {
    b.Import? &&
    (ImportedName("numpy", Some(nickname)) in b.names ||
     (ImportedName("numpy", None) in b.names && nickname == "numpy"))
  }

  /** An import entry for module numpy that binds exactly `nickname`. */
  ghost predicate EntryBindsNumpy(entry: ImportedName, nickname: string)
  {
    entry.modname == "numpy" && BoundName(entry) == nickname
  }

  /** The membership test of `BindsNumpyAs` says that some entry of the import binds the nickname to numpy. */
  lemma BindsNumpyAsMeansBoundName(b: Binding, nickname: string)
    requires b.Import?
    ensures BindsNumpyAs(b, nickname) <==> exists j :: 0 <= j < |b.names| && EntryBindsNumpy(b.names[j], nickname)
  {
  }

  /** Whether any of `bindings` binds `nickname` to numpy, scanning them in order. */
  function AnyBindsNumpyAs(bindings: seq<Binding>, nickname: string): (r: bool)
    ensures r <==> exists i :: 0 <= i < |bindings| && BindsNumpyAs(bindings[i], nickname)
    decreases |bindings|
  {
    if |bindings| == 0 then false
    else if BindsNumpyAs(bindings[0], nickname) then true
    else AnyBindsNumpyAs(bindings[1..], nickname)
  }

  /**
   * The corrected `_is_a_numpy_module`: some import that lookup returns
   * binds the name itself to numpy. It accepts no more than the code as
   * written.
   */
  function IsBoundToNumpy(node: NameNode): (r: bool)
    ensures r <==> exists i :: 0 <= i < |node.lookupResult| && BindsNumpyAs(node.lookupResult[i], node.name)
    ensures r ==> IsANumpyModule(node)
  {
    AnyBindsNumpyAs(node.lookupResult, node.name)
  }

  /** The corrected resolver holds exactly when some import entry found by lookup binds the name to module numpy. */
  lemma IsBoundToNumpyMeansBoundName(node: NameNode)
    ensures IsBoundToNumpy(node) <==>
              exists i, j :: 0 <= i < |node.lookupResult| && node.lookupResult[i].Import? &&
                             0 <= j < |node.lookupResult[i].names| &&
                             EntryBindsNumpy(node.lookupResult[i].names[j], node.name)
  {
  }

  /** The corrected resolver rejects the sibling of an unaliased numpy import and still accepts `numpy` and aliases. */
  lemma IsBoundToNumpyExamples()
    ensures !IsBoundToNumpy(NameNode("scipy", [Import([ImportedName("numpy", None), ImportedName("scipy", None)])], "app"))
    ensures IsBoundToNumpy(NameNode("numpy", [Import([ImportedName("numpy", None), ImportedName("scipy", None)])], "app"))
    ensures IsBoundToNumpy(NameNode("np", [OtherBinding, Import([ImportedName("numpy", Some("np"))])], "app"))
  {
  }

  // ---------------------------------------------------------------------------
  // Member predicates
  // ---------------------------------------------------------------------------

  /** `member_name_looks_like_numpy_member`: the name is a listed member and the root module's name starts with `numpy`. */
  predicate MemberNameLooksLikeNumpyMember(memberNames: set<string>, node: NameNode)
  {
    node.name in memberNames && StartsWith(node.rootName, "numpy")
  }

  /**
   * `attribute_name_looks_like_numpy_member`: the attribute is a listed
   * member, and it is taken from a bare name that resolves to numpy.
   */
  predicate AttributeNameLooksLikeNumpyMember(memberNames: set<string>, node: AttributeNode)
  {
    node.attrname in memberNames && node.expr.NameExpr? && IsANumpyModule(node.expr.n)
  }

  /**
   * A name is a numpy member exactly when it is listed and the module it
   * appears in is named `numpy` followed by anything, so `numpy.core` and
   * also `numpyro` qualify.
   */
  lemma MemberNameMatch(memberNames: set<string>, node: NameNode)
    ensures MemberNameLooksLikeNumpyMember(memberNames, node) <==>
              node.name in memberNames && exists rest: string :: node.rootName == "numpy" + rest
  {
    if StartsWith(node.rootName, "numpy") {
      var rest := node.rootName[5..];
      assert node.rootName == "numpy" + rest;
    }
  }

  /**
   * An attribute is a numpy member exactly when it is listed, its object is
   * a bare name, and some `import` that lookup finds for that name has an
   * entry for module `numpy` whose alias is that name or absent; an unlisted
   * attribute never matches.
   */
  lemma AttributeNameMatch(memberNames: set<string>, node: AttributeNode)
    ensures AttributeNameLooksLikeNumpyMember(memberNames, node) <==>
              && node.attrname in memberNames
              && node.expr.NameExpr?
              && exists i, j :: 0 <= i < |node.expr.n.lookupResult| &&
                                node.expr.n.lookupResult[i].Import? &&
                                0 <= j < |node.expr.n.lookupResult[i].names| &&
                                node.expr.n.lookupResult[i].names[j].modname == "numpy" &&
                                node.expr.n.lookupResult[i].names[j].asname in {None, Some(node.expr.n.name)}
    ensures node.attrname !in memberNames ==> !AttributeNameLooksLikeNumpyMember(memberNames, node)
  {
    if node.expr.NameExpr? {
      var n := node.expr.n;
      var bs := n.lookupResult;
      if IsANumpyModule(n) {
        var i :| 0 <= i < |bs| && ImportsNumpyAs(bs[i], n.name);
        var names := bs[i].names;
        var j :| 0 <= j < |names| &&
                 (names[j] == ImportedName("numpy", Some(n.name)) || names[j] == ImportedName("numpy", None));
        assert names[j].modname == "numpy" && names[j].asname in {None, Some(n.name)};
      }
      if exists i, j :: 0 <= i < |bs| && bs[i].Import? && 0 <= j < |bs[i].names| &&
                        bs[i].names[j].modname == "numpy" && bs[i].names[j].asname in {None, Some(n.name)} {
        var i, j :| 0 <= i < |bs| && bs[i].Import? && 0 <= j < |bs[i].names| &&
                    bs[i].names[j].modname == "numpy" && bs[i].names[j].asname in {None, Some(n.name)};
        assert bs[i].names[j] in bs[i].names;
        assert ImportsNumpyAs(bs[i], n.name);
      }
    }
  }

  /** `import numpy as np` makes `np.linspace` a numpy member; rebinding `np` to something else does not. */
  lemma AttributeMatchExamples()
    ensures AttributeNameLooksLikeNumpyMember({"linspace"},
              AttributeNode("linspace", NameExpr(NameNode("np", [Import([ImportedName("numpy", Some("np"))])], "app"))))
    ensures !AttributeNameLooksLikeNumpyMember({"linspace"},
              AttributeNode("linspace", NameExpr(NameNode("np", [OtherBinding], "app"))))
    ensures !AttributeNameLooksLikeNumpyMember({"zeros"},
              AttributeNode("linspace", NameExpr(NameNode("np", [Import([ImportedName("numpy", Some("np"))])], "app"))))
  {
  }

  /** `name_looks_like_numpy_member`: the single-name variant. */
  function NameLooksLikeNumpyMember(memberName: string, node: NameNode): (r: bool)
    ensures r == MemberNameLooksLikeNumpyMember({memberName}, node)
  {
    node.name == memberName && StartsWith(node.rootName, "numpy")
  }

  /** `attribute_looks_like_numpy_member`: the single-name variant. */
  function AttributeLooksLikeNumpyMember(memberName: string, node: AttributeNode): (r: bool)
    ensures r == AttributeNameLooksLikeNumpyMember({memberName}, node)
  {
    node.attrname == memberName && node.expr.NameExpr? && IsANumpyModule(node.expr.n)
  }

  /** The corrected attribute predicate, built on the corrected resolver; it accepts no more than the one as written. */
  function AttributeRefersToNumpyMember(memberNames: set<string>, node: AttributeNode): (r: bool)
    ensures r ==> AttributeNameLooksLikeNumpyMember(memberNames, node)
    ensures r <==> node.attrname in memberNames && node.expr.NameExpr? && IsBoundToNumpy(node.expr.n)
  {
    node.attrname in memberNames && node.expr.NameExpr? && IsBoundToNumpy(node.expr.n)
  }

  // ---------------------------------------------------------------------------
  // Snippet-based inference
  // ---------------------------------------------------------------------------

  /** Stand-in source text for each numpy member, keyed by member name. */
  type Snippets = map<string, string>

  /** `extract_node(text).infer(context)`: parse a snippet and infer its node; a parse error is raised like any other. */
  type SnippetInference = (string, Option<ContextId>) -> Outcome

  /** A `KeyError` for a member without a snippet, or an exception raised while parsing or inferring the snippet. */
  datatype SnippetError = MissingSnippet(name: string) | Raised(error: InferenceError)

  /** An exception raised by the snippet's parsing or inference, propagated unchanged. */
  function Propagate(o: Outcome): (r: Result<Answer, SnippetError>)
  {
    match o
    case Success(answer) => Success(answer)
    case Failure(e) => Failure(Raised(e))
  }

  /** Infers the snippet stored under `key`; a missing key is an error, with no default. */
  function InferSnippet(sources: Snippets, key: string, context: Option<ContextId>, extract: SnippetInference): (r: Result<Answer, SnippetError>)
    ensures r == Failure(MissingSnippet(key)) <==> key !in sources
    ensures key in sources ==> (r.Success? <==> extract(sources[key], context).Success?)
    ensures key in sources && r.Success? ==> r.value == extract(sources[key], context).value
    ensures key in sources && r.Failure? ==> r.error == Raised(extract(sources[key], context).error)
  {
    if key !in sources then Failure(MissingSnippet(key))
    else Propagate(extract(sources[key], context))
  }

  /** `infer_numpy_name`: infer the snippet keyed by the name's identifier. */
  function InferNumpyName(sources: Snippets, node: NameNode, context: Option<ContextId>, extract: SnippetInference): (r: Result<Answer, SnippetError>)
    ensures r == Failure(MissingSnippet(node.name)) <==> node.name !in sources
    ensures node.name in sources ==> r == InferNumpyMember(sources[node.name], NameExpr(node), context, extract)
  {
    InferSnippet(sources, node.name, context, extract)
  }

  /** `infer_numpy_attribute`: infer the snippet keyed by the attribute name. */
  function InferNumpyAttribute(sources: Snippets, node: AttributeNode, context: Option<ContextId>, extract: SnippetInference): (r: Result<Answer, SnippetError>)
    ensures r == Failure(MissingSnippet(node.attrname)) <==> node.attrname !in sources
    ensures node.attrname in sources ==> r == InferNumpyMember(sources[node.attrname], AttributeExpr(node), context, extract)
  {
    InferSnippet(sources, node.attrname, context, extract)
  }

  /** `infer_numpy_member`: infer the given snippet text; the node argument is ignored. */
  function InferNumpyMember(src: string, node: Expr, context: Option<ContextId>, extract: SnippetInference): (r: Result<Answer, SnippetError>)
    ensures r.Success? <==> extract(src, context).Success?
    ensures r.Success? ==> r.value == extract(src, context).value
    ensures r.Failure? ==> r.error == Raised(extract(src, context).error)
  {
    Propagate(extract(src, context))
  }

  /** The node passed to `infer_numpy_member` plays no part: any two nodes give the same outcome. */
  lemma InferNumpyMemberIgnoresNode(src: string, n1: Expr, n2: Expr, context: Option<ContextId>, extract: SnippetInference)
    ensures InferNumpyMember(src, n1, context, extract) == InferNumpyMember(src, n2, context, extract)
  {
  }

  /** A name and an attribute with the same identifier infer the same snippet. */
  lemma NameAndAttributeAgree(sources: Snippets, name: NameNode, attribute: AttributeNode, context: Option<ContextId>, extract: SnippetInference)
    requires name.name == attribute.attrname
    ensures InferNumpyName(sources, name, context, extract) == InferNumpyAttribute(sources, attribute, context, extract)
  {
  }
}
