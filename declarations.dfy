/**
 * Declaration extraction: the subprogram's name, parameters, return type and
 * local variables read off a METHOD_DECL tree, and the control flow graph of
 * its body. Each routine that loops in the source is a method proved against
 * a function that says what it computes; the functions' properties are lemmas.
 */
module Declarations {
  import opened Wrappers
  import opened Syntax
  import opened CfgSpec
  import opened CfgBuilder

  // ---------------------------------------------------------------------------
  // findChildByText

  /** Position of the first child labelled `l`. */
  function FirstLabelled(cs: seq<Tree>, l: string): (r: Option<nat>)
    ensures r.Some? ==> r.value < |cs| && cs[r.value].text == l
    ensures r.Some? ==> forall j :: 0 <= j < r.value ==> cs[j].text != l
    ensures r.None? <==> forall j :: 0 <= j < |cs| ==> cs[j].text != l
  {
    if cs == [] then None
    else if cs[0].text == l then Some(0)
    else
      match FirstLabelled(cs[1..], l)
      case None => assert forall j :: 1 <= j < |cs| ==> cs[j] == cs[1..][j - 1]; None
      case Some(k) => assert forall j :: 1 <= j <= k ==> cs[j] == cs[1..][j - 1]; Some(k + 1)
  }

  /** The first child of `t` labelled `l`, if there is one. */
  function ChildByText(t: Tree, l: string): Option<Tree>
  {
    match FirstLabelled(t.children, l)
    case None => None
    case Some(i) => Some(t.children[i])
  }

  /** Only a child labelled `l` is found, and it is found whenever there is one. */
  lemma ChildByTextFound(t: Tree, l: string)
    ensures ChildByText(t, l).Some? <==> HasChildLabelled(t, l)
    ensures ChildByText(t, l).Some? ==> ChildByText(t, l).value.text == l && ChildByText(t, l).value in t.children
  {
  }

  /** `findChildByText`: scans the children in order and stops at the first match. */
  method FindChildByText(t: Tree, l: string) returns (r: Option<Tree>)
    ensures r == ChildByText(t, l)
  {
    var i := 0;
    while i < |t.children|
      invariant 0 <= i <= |t.children|
      invariant forall j :: 0 <= j < i ==> t.children[j].text != l
    {
      if t.children[i].text == l {
        return Some(t.children[i]);
      }
      i := i + 1;
    }
    return None;
  }

  // ---------------------------------------------------------------------------
  // flattenTreeText

  /** The node's own label, when it is not empty. */
  function Own(t: Tree): seq<string>
  {
    if t.text != "" then [t.text] else []
  }

  /** The non-empty labels of `t` in pre-order. */
  function Labels(t: Tree): seq<string>
    decreases t, 1
  {
    Own(t) + ChildLabels(t, |t.children|)
  }

  /** The labels of the first `i` children's subtrees, in order. */
  function ChildLabels(t: Tree, i: nat): seq<string>
    requires i <= |t.children|
    decreases t, 0, i
  {
    if i == 0 then [] else ChildLabels(t, i - 1) + Labels(t.children[i - 1])
  }

  lemma {:induction false} LabelsNonEmpty(t: Tree)
    ensures forall k :: 0 <= k < |Labels(t)| ==> Labels(t)[k] != ""
    decreases t, 1
  {
    ChildLabelsNonEmpty(t, |t.children|);
  }

  lemma {:induction false} ChildLabelsNonEmpty(t: Tree, i: nat)
    requires i <= |t.children|
    ensures forall k :: 0 <= k < |ChildLabels(t, i)| ==> ChildLabels(t, i)[k] != ""
    decreases t, 0, i
  {
    if i > 0 {
      ChildLabelsNonEmpty(t, i - 1);
      LabelsNonEmpty(t.children[i - 1]);
    }
  }

  /** The builder's contents after appending `ls`: a space goes in front of a label only when the buffer is not empty. */
  function Extend(sb: string, ls: seq<string>): string
    decreases |ls|
  {
    if ls == [] then sb
    else Extend((if |sb| > 0 then sb + " " else sb) + ls[0], ls[1..])
  }

  lemma {:induction false} ExtendConcat(sb: string, a: seq<string>, b: seq<string>)
    ensures Extend(sb, a + b) == Extend(Extend(sb, a), b)
    decreases |a|
  {
    if a == [] {
      assert a + b == b;
    } else {
      assert (a + b)[0] == a[0] && (a + b)[1..] == a[1..] + b;
      ExtendConcat((if |sb| > 0 then sb + " " else sb) + a[0], a[1..], b);
    }
  }

  /** The labels separated by single spaces. */
  function JoinSpaces(ls: seq<string>): string
  {
    if ls == [] then ""
    else if |ls| == 1 then ls[0]
    else ls[0] + " " + JoinSpaces(ls[1..])
  }

  lemma {:induction false} ExtendFilled(sb: string, ls: seq<string>)
    requires |sb| > 0
    ensures Extend(sb, ls) == if ls == [] then sb else sb + " " + JoinSpaces(ls)
    decreases |ls|
  {
    if ls != [] {
      ExtendFilled(sb + " " + ls[0], ls[1..]);
    }
  }

  /** From an empty builder, appending non-empty labels joins them with single spaces. */
  lemma ExtendEmpty(ls: seq<string>)
    requires forall k :: 0 <= k < |ls| ==> ls[k] != ""
    ensures Extend("", ls) == JoinSpaces(ls)
  {
    if ls != [] {
      assert "" + ls[0] == ls[0] && |ls[0]| > 0;
      ExtendFilled(ls[0], ls[1..]);
    }
  }

  /** `flattenTreeTextRec`: appends the labels of `t` to the builder contents `sb`. */
  method FlattenTreeTextRec(sb: string, t: Tree) returns (out: string)
    ensures out == Extend(sb, Labels(t))
    decreases t
  {
    out := sb;
    if t.text != "" {
      if |out| > 0 {
        out := out + " ";
      }
      out := out + t.text;
    }
    assert out == Extend(sb, Own(t));
    var i := 0;
    while i < |t.children|
      invariant 0 <= i <= |t.children|
      invariant out == Extend(sb, Own(t) + ChildLabels(t, i))
    {
      out := FlattenTreeTextRec(out, t.children[i]);
      ExtendConcat(sb, Own(t) + ChildLabels(t, i), Labels(t.children[i]));
      LabelsStep(t, i);
      i := i + 1;
    }
  }

  /** One more child's labels follow those already collected. */
  lemma LabelsStep(t: Tree, i: nat)
    requires i < |t.children|
    ensures Own(t) + ChildLabels(t, i + 1) == (Own(t) + ChildLabels(t, i)) + Labels(t.children[i])
  {
    assert ChildLabels(t, i + 1) == ChildLabels(t, i) + Labels(t.children[i]);
  }

  /** `flattenTreeText`: the pre-order non-empty labels of `t` joined by single spaces. */
  method FlattenTreeText(t: Tree) returns (s: string)
    ensures s == JoinSpaces(Labels(t))
  {
    s := FlattenTreeTextRec("", t);
    LabelsNonEmpty(t);
    ExtendEmpty(Labels(t));
  }

  /** Splitting at every space. */
  function SplitSpaces(s: string): seq<string>
    decreases |s|
  {
    if ' ' !in s then [s]
    else
      var i := FirstSpace(s);
      [s[..i]] + SplitSpaces(s[i + 1..])
  }

  function FirstSpace(s: string): (i: nat)
    requires ' ' in s
    ensures i < |s| && s[i] == ' ' && ' ' !in s[..i]
  {
    if s[0] == ' ' then 0
    else
      var k := FirstSpace(s[1..]);
      assert s[1..][k] == s[k + 1];
      assert s[..k + 1] == [s[0]] + s[1..][..k];
      k + 1
  }

  /** Labels that contain no space are recovered from their joined text. */
  lemma {:induction false} SplitJoin(ls: seq<string>)
    requires ls != [] && forall k :: 0 <= k < |ls| ==> ' ' !in ls[k]
    ensures SplitSpaces(JoinSpaces(ls)) == ls
    decreases |ls|
  {
    if |ls| > 1 {
      var rest := JoinSpaces(ls[1..]);
      var s := ls[0] + " " + rest;
      assert s[|ls[0]|] == ' ';
      assert s[..|ls[0]|] == ls[0];
      FirstSpaceAt(s, |ls[0]|);
      assert s[|ls[0]| + 1..] == rest;
      SplitJoin(ls[1..]);
      assert ls == [ls[0]] + ls[1..];
    }
  }

  lemma FirstSpaceAt(s: string, i: nat)
    requires i < |s| && s[i] == ' ' && ' ' !in s[..i]
    ensures ' ' in s && FirstSpace(s) == i
  {
  }

  // ---------------------------------------------------------------------------
  // extractTypeText, extractIdText

  /** What `extractTypeText` returns for a type node. */
  function TypeText(t: Tree): string
  {
    if t.text == "VOID_VALUE" then "void" else JoinSpaces(Labels(t))
  }

  /** `extractTypeText`: "void" for VOID_VALUE, otherwise the flattened text. */
  method ExtractTypeText(t: Tree) returns (s: string)
    ensures s == TypeText(t)
  {
    if t.text == "VOID_VALUE" {
      return "void";
    }
    s := FlattenTreeText(t);
  }

  /** `extractIdText`: the label of the first child, or the node's own label when it has none. */
  function IdText(t: Tree): string
  {
    if |t.children| > 0 then t.children[0].text else t.text
  }

  // ---------------------------------------------------------------------------
  // fillSubprogramInfo

  /** The declaration part of `SubprogramInfo`; `None` stands for a NULL field. */
  datatype SubprogramInfo = SubprogramInfo(
    name: Option<string>,
    paramNames: seq<string>,
    paramTypes: seq<Option<string>>,
    returnType: Option<string>,
    localNames: seq<string>,
    localTypes: seq<Option<string>>,
    sourceFile: Option<string>,
    cfg: Option<ControlFlowGraph>)

  function NameOf(m: Tree): Option<string>
  {
    match ChildByText(m, "ID")
    case None => None
    case Some(n) => Some(IdText(n))
  }

  /** The children of the first PARAMETERS child. */
  function ParamsOf(m: Tree): seq<Tree>
  {
    match ChildByText(m, "PARAMETERS")
    case None => []
    case Some(p) => p.children
  }

  /**
   * The type text under the first child of `t` labelled `l` (TYPE of a
   * parameter or a declaration, RETURN_TYPE of a method): `extractTypeText`
   * of that child's first child, or none when there is no such child or it
   * is empty.
   */
  function TypeUnder(t: Tree, l: string): Option<string>
  {
    match ChildByText(t, l)
    case Some(tn) => if |tn.children| > 0 then Some(TypeText(tn.children[0])) else None
    case None => None
  }

  /** Every parameter node has an ID child (the source dereferences it unchecked). */
  predicate ParamsNamed(ps: seq<Tree>)
  {
    forall i :: 0 <= i < |ps| ==> ChildByText(ps[i], "ID").Some?
  }

  function ParamNames(ps: seq<Tree>): (r: seq<string>)
    requires ParamsNamed(ps)
    ensures |r| == |ps|
    ensures forall i :: 0 <= i < |ps| ==> r[i] == IdText(ChildByText(ps[i], "ID").value)
  {
    seq(|ps|, i requires 0 <= i < |ps| && ParamsNamed(ps) => IdText(ChildByText(ps[i], "ID").value))
  }

  function ParamTypes(ps: seq<Tree>): (r: seq<Option<string>>)
    ensures |r| == |ps|
    ensures forall i :: 0 <= i < |ps| ==> r[i] == TypeUnder(ps[i], "TYPE")
  {
    seq(|ps|, i requires 0 <= i < |ps| => TypeUnder(ps[i], "TYPE"))
  }

  /** The VAR_DECLARATION children of the body's first VAR_DECLARATIONS child. */
  function DeclsOf(m: Tree): seq<Tree>
  {
    match ChildByText(m, "BODY")
    case None => []
    case Some(b) =>
      match ChildByText(b, "VAR_DECLARATIONS")
      case None => []
      case Some(v) => v.children
  }

  /** The variable nodes of one declaration: the children of its first VARIABLES child. */
  function VarsOf(d: Tree): seq<Tree>
  {
    match ChildByText(d, "VARIABLES")
    case None => []
    case Some(v) => v.children
  }

  /** The body's first BLOCK child, when it has statements. */
  function BlockOf(m: Tree): Option<Tree>
  {
    match ChildByText(m, "BODY")
    case None => None
    case Some(b) =>
      match ChildByText(b, "BLOCK")
      case None => None
      case Some(k) => if |k.children| > 0 then Some(k) else None
  }

  /** The names of the variable nodes `vs`, in order. */
  function IdTexts(vs: seq<Tree>): (r: seq<string>)
    ensures |r| == |vs| && forall k :: 0 <= k < |vs| ==> r[k] == IdText(vs[k])
  {
    if vs == [] then [] else IdTexts(vs[..|vs| - 1]) + [IdText(vs[|vs| - 1])]
  }

  /** `n` copies of `x`. */
  function Copies<T>(n: nat, x: T): (r: seq<T>)
    ensures |r| == n && forall k :: 0 <= k < n ==> r[k] == x
  {
    if n == 0 then [] else Copies(n - 1, x) + [x]
  }

  /** The lists `f` gives for the nodes of `ds`, concatenated in order. */
  function Flatten<T>(ds: seq<Tree>, f: Tree -> seq<T>): seq<T>
  {
    if ds == [] then [] else Flatten(ds[..|ds| - 1], f) + f(ds[|ds| - 1])
  }

  /**
   * Element `j` of the list of `ds[d]` sits right after the lists of
   * `ds[..d]`. With `LocalNames` and `LocalTypes` this is the layout of the
   * locals: variable `j` of declaration `d` comes right after every variable
   * of the earlier declarations, with its own name and its declaration's type.
   */
  lemma {:induction false} FlattenAt<T>(ds: seq<Tree>, f: Tree -> seq<T>, d: nat, j: nat)
    requires d < |ds| && j < |f(ds[d])|
    ensures |Flatten(ds[..d], f)| + j < |Flatten(ds, f)|
    ensures Flatten(ds, f)[|Flatten(ds[..d], f)| + j] == f(ds[d])[j]
  {
    var n := |ds| - 1;
    var init := ds[..n];
    assert Flatten(ds, f) == Flatten(init, f) + f(ds[n]);
    if d < n {
      FlattenAt(init, f, d, j);
      assert init[..d] == ds[..d] && init[d] == ds[d];
    } else {
      assert ds[..d] == init;
    }
  }

  /** The names one declaration contributes. */
  function DeclNames(d: Tree): seq<string>
  {
    IdTexts(VarsOf(d))
  }

  /** The types one declaration contributes: its type once per variable. */
  function DeclTypes(d: Tree): seq<Option<string>>
  {
    Copies(|VarsOf(d)|, TypeUnder(d, "TYPE"))
  }

  /** The local names of the declarations `ds`, declaration by declaration. */
  function LocalNames(ds: seq<Tree>): seq<string>
  {
    Flatten(ds, DeclNames)
  }

  /** The local types, one per local name. */
  function LocalTypes(ds: seq<Tree>): seq<Option<string>>
  {
    Flatten(ds, DeclTypes)
  }

  /** There is one type per local name. */
  lemma {:induction false} LocalsAligned(ds: seq<Tree>)
    ensures |LocalNames(ds)| == |LocalTypes(ds)|
  {
    if ds != [] {
      LocalsAligned(ds[..|ds| - 1]);
    }
  }

  /** One more declaration appends its own names and types. */
  lemma LocalsSnoc(ds: seq<Tree>, i: nat)
    requires i < |ds|
    ensures LocalNames(ds[..i + 1]) == LocalNames(ds[..i]) + IdTexts(VarsOf(ds[i]))
    ensures LocalTypes(ds[..i + 1]) == LocalTypes(ds[..i]) + Copies(|VarsOf(ds[i])|, TypeUnder(ds[i], "TYPE"))
  {
    assert ds[..i + 1][..i] == ds[..i] && ds[..i + 1][i] == ds[i];
  }

  /** What the source requires of a METHOD_DECL: named parameters and a block the CFG builder accepts. */
  predicate Fillable(m: Tree)
  {
    ParamsNamed(ParamsOf(m)) && (BlockOf(m).Some? ==> Processable(BlockOf(m).value))
  }

  /**
   * `fillSubprogramInfo` on a freshly initialised record: the name, the
   * parameters in order (a missing TYPE leaves the type NULL), the return
   * type, the locals declaration by declaration, and the CFG of a non-empty
   * BLOCK, whose node ids start at `firstId`.
   */
  method FillSubprogramInfo(m: Tree, firstId: int) returns (info: SubprogramInfo)
    requires Fillable(m)
    ensures info.name == NameOf(m) && info.returnType == TypeUnder(m, "RETURN_TYPE") && info.sourceFile == None
    ensures info.paramNames == ParamNames(ParamsOf(m)) && info.paramTypes == ParamTypes(ParamsOf(m))
    ensures info.localNames == LocalNames(DeclsOf(m)) && info.localTypes == LocalTypes(DeclsOf(m))
    ensures info.cfg.Some? <==> BlockOf(m).Some?
    ensures info.cfg.Some? ==> fresh(info.cfg.value) && info.cfg.value.State() == BuildSpec(BlockOf(m).value, firstId)
  {
    var name: Option<string> := None;
    var nameNode := FindChildByText(m, "ID");
    if nameNode.Some? {
      name := Some(IdText(nameNode.value));
    }

    var paramNames: seq<string>, paramTypes: seq<Option<string>> := [], [];
    var paramsNode := FindChildByText(m, "PARAMETERS");
    if paramsNode.Some? && |paramsNode.value.children| > 0 {
      paramNames, paramTypes := FillParams(paramsNode.value.children);
    }

    var returnType := FindTypeText(m, "RETURN_TYPE");

    var localNames: seq<string>, localTypes: seq<Option<string>> := [], [];
    var cfg: Option<ControlFlowGraph> := None;
    var bodyNode := FindChildByText(m, "BODY");
    if bodyNode.Some? {
      localNames, localTypes, cfg := FillBody(bodyNode.value, firstId);
    }
    info := SubprogramInfo(name, paramNames, paramTypes, returnType, localNames, localTypes, None, cfg);
  }

  /** The BODY part of `fillSubprogramInfo`: the locals, then the CFG of a non-empty BLOCK. */
  method FillBody(b: Tree, firstId: int) returns (names: seq<string>, types: seq<Option<string>>, cfg: Option<ControlFlowGraph>)
    requires var k := ChildByText(b, "BLOCK"); k.Some? && |k.value.children| > 0 ==> Processable(k.value)
    ensures var v := ChildByText(b, "VAR_DECLARATIONS");
      names == (if v.Some? then LocalNames(v.value.children) else [])
      && types == (if v.Some? then LocalTypes(v.value.children) else [])
    ensures var k := ChildByText(b, "BLOCK");
      (cfg.Some? <==> k.Some? && |k.value.children| > 0)
      && (cfg.Some? ==> fresh(cfg.value) && cfg.value.State() == BuildSpec(k.value, firstId))
  {
    names, types := [], [];
    var declsNode := FindChildByText(b, "VAR_DECLARATIONS");
    if declsNode.Some? && |declsNode.value.children| > 0 {
      names, types := CollectLocals(declsNode.value.children);
    }
    cfg := None;
    var blockNode := FindChildByText(b, "BLOCK");
    if blockNode.Some? && |blockNode.value.children| > 0 {
      var g := BuildCfg(blockNode.value, firstId);
      cfg := Some(g);
    }
  }

  /** The type lookup of a parameter, a declaration or a method's return type. */
  method FindTypeText(t: Tree, l: string) returns (r: Option<string>)
    ensures r == TypeUnder(t, l)
  {
    var typeNode := FindChildByText(t, l);
    r := None;
    if typeNode.Some? && |typeNode.value.children| > 0 {
      var ty := ExtractTypeText(typeNode.value.children[0]);
      r := Some(ty);
    }
  }

  /**
   * The parameter loop of `fillSubprogramInfo`: both arrays start zeroed, every
   * name is written, and a type only where the parameter has a non-empty TYPE.
   */
  method FillParams(ps: seq<Tree>) returns (names: seq<string>, types: seq<Option<string>>)
    requires ParamsNamed(ps)
    ensures names == ParamNames(ps) && types == ParamTypes(ps)
  {
    names := Copies(|ps|, "");
    types := Copies(|ps|, None);
    var i := 0;
    while i < |ps|
      invariant 0 <= i <= |ps| && |names| == |ps| && |types| == |ps|
      invariant forall k :: 0 <= k < i ==> names[k] == IdText(ChildByText(ps[k], "ID").value)
      invariant forall k :: 0 <= k < i ==> types[k] == TypeUnder(ps[k], "TYPE")
      invariant forall k :: i <= k < |ps| ==> types[k] == None
    {
      var idNode := FindChildByText(ps[i], "ID");
      names := names[i := IdText(idNode.value)];
      var ty := FindTypeText(ps[i], "TYPE");
      if ty.Some? {
        types := types[i := ty];
      }
      i := i + 1;
    }
  }

  /** The declaration loop of `fillSubprogramInfo`: one local per variable, each with its declaration's type. */
  method CollectLocals(ds: seq<Tree>) returns (names: seq<string>, types: seq<Option<string>>)
    ensures names == LocalNames(ds) && types == LocalTypes(ds)
  {
    names, types := [], [];
    var i := 0;
    while i < |ds|
      invariant 0 <= i <= |ds|
      invariant names == LocalNames(ds[..i]) && types == LocalTypes(ds[..i])
    {
      names, types := AppendDeclaration(names, types, ds[i]);
      LocalsSnoc(ds, i);
      i := i + 1;
    }
    assert ds[..|ds|] == ds;
  }

  /** One declaration: its type once, then its variables (none without a VARIABLES child). */
  method AppendDeclaration(names0: seq<string>, types0: seq<Option<string>>, d: Tree)
    returns (names: seq<string>, types: seq<Option<string>>)
    ensures names == names0 + IdTexts(VarsOf(d))
    ensures types == types0 + Copies(|VarsOf(d)|, TypeUnder(d, "TYPE"))
  {
    var declType := FindTypeText(d, "TYPE");
    names, types := names0, types0;
    var varsNode := FindChildByText(d, "VARIABLES");
    if varsNode.Some? {
      names, types := AppendVariables(names, types, varsNode.value.children, declType);
    } else {
      assert names == names0 + [] && types == types0 + [];
    }
  }

  /** The variable loop: each variable's name, and its own copy of the declaration's type. */
  method AppendVariables(names0: seq<string>, types0: seq<Option<string>>, vs: seq<Tree>, declType: Option<string>)
    returns (names: seq<string>, types: seq<Option<string>>)
    ensures names == names0 + IdTexts(vs) && types == types0 + Copies(|vs|, declType)
  {
    names, types := names0, types0;
    var j := 0;
    while j < |vs|
      invariant 0 <= j <= |vs|
      invariant names == names0 + IdTexts(vs[..j]) && types == types0 + Copies(j, declType)
    {
      assert vs[..j + 1][..j] == vs[..j];
      names := names + [IdText(vs[j])];
      types := types + [declType];
      j := j + 1;
    }
    assert vs[..|vs|] == vs;
  }

  // ---------------------------------------------------------------------------
  // findMethodDeclaration, generateSubprogramInfo

  /** `findMethodDeclaration`: the node itself if it is a METHOD_DECL, else the search of its first child only. */
  function FindMethodDeclaration(t: Tree): (r: Option<Tree>)
    ensures r.Some? ==> r.value.text == "METHOD_DECL"
  {
    if t.text == "METHOD_DECL" then Some(t)
    else if |t.children| > 0 then FindMethodDeclaration(t.children[0])
    else None
  }

  /** The chain of first children from `t` down to a leaf. */
  function FirstChildSpine(t: Tree): (r: seq<Tree>)
    ensures |r| > 0 && r[0] == t
  {
    if |t.children| == 0 then [t] else [t] + FirstChildSpine(t.children[0])
  }

  /**
   * The search finds the first METHOD_DECL on the chain of first children and
   * nothing else: a METHOD_DECL anywhere off that chain is never found.
   */
  lemma {:induction false} FindMethodOnSpine(t: Tree)
    ensures FindMethodDeclaration(t).None? <==>
      forall i :: 0 <= i < |FirstChildSpine(t)| ==> FirstChildSpine(t)[i].text != "METHOD_DECL"
    ensures FindMethodDeclaration(t).Some? ==>
      exists i :: 0 <= i < |FirstChildSpine(t)| && FirstChildSpine(t)[i] == FindMethodDeclaration(t).value
        && forall j :: 0 <= j < i ==> FirstChildSpine(t)[j].text != "METHOD_DECL"
  {
    if t.text != "METHOD_DECL" && |t.children| > 0 {
      var c := t.children[0];
      FindMethodOnSpine(c);
      var s := FirstChildSpine(t);
      assert forall i :: 1 <= i < |s| ==> s[i] == FirstChildSpine(c)[i - 1];
      if FindMethodDeclaration(c).Some? {
        var i :| 0 <= i < |FirstChildSpine(c)| && FirstChildSpine(c)[i] == FindMethodDeclaration(c).value
          && forall j :: 0 <= j < i ==> FirstChildSpine(c)[j].text != "METHOD_DECL";
        assert s[i + 1] == FindMethodDeclaration(t).value;
      } else {
        forall i | 0 <= i < |s| ensures s[i].text != "METHOD_DECL" {
          if i > 0 { assert s[i] == FirstChildSpine(c)[i - 1]; }
        }
      }
    } else if t.text == "METHOD_DECL" {
      assert FirstChildSpine(t)[0] == t;
    }
  }

  /**
   * `generateSubprogramInfo`: NULL when the search finds no METHOD_DECL,
   * otherwise the filled record tagged with the source file name.
   */
  method GenerateSubprogramInfo(sourceFile: string, tree: Tree, firstId: int) returns (r: Option<SubprogramInfo>)
    requires FindMethodDeclaration(tree).Some? ==> Fillable(FindMethodDeclaration(tree).value)
    ensures r.None? <==> FindMethodDeclaration(tree).None?
    ensures r.Some? ==> var m := FindMethodDeclaration(tree).value;
      r.value.sourceFile == Some(sourceFile) && r.value.name == NameOf(m)
      && r.value.paramNames == ParamNames(ParamsOf(m)) && r.value.paramTypes == ParamTypes(ParamsOf(m))
      && r.value.returnType == TypeUnder(m, "RETURN_TYPE")
      && r.value.localNames == LocalNames(DeclsOf(m)) && r.value.localTypes == LocalTypes(DeclsOf(m))
      && (r.value.cfg.Some? <==> BlockOf(m).Some?)
    ensures r.Some? && r.value.cfg.Some? ==>
      fresh(r.value.cfg.value) && r.value.cfg.value.State() == BuildSpec(BlockOf(FindMethodDeclaration(tree).value).value, firstId)
  {
    var m := FindMethodDeclaration(tree);
    if m.None? {
      return None;
    }
    var info := FillSubprogramInfo(m.value, firstId);
    return Some(info.(sourceFile := Some(sourceFile)));
  }
}
