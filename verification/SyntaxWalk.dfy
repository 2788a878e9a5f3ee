/**
  The syntax-tree scanner (`_ASTVisitor`, watchers/code_watcher.py, lines
  217-286) on a small tree type, against the pre-order list of all positions.
*/
module SyntaxWalk {
  import opened Schema

  datatype Node =
    | Call(line: nat, func: Node, args: seq<Node>, keywords: seq<Keyword>)
    | Attribute(line: nat, value: Node, attr: string, load: bool)
    | Name(id: string)
    | Constant(isTrue: bool)
    | Other(children: seq<Node>)

  /** `f(arg=value)`; `f(**value)` has no arg. */
  datatype Keyword = Keyword(arg: Option<string>, value: Node)

  /** One finding of the visitor: its type and line. */
  datatype Flag = Flag(kind: FindingType, line: nat)

  function Values(ks: seq<Keyword>): (r: seq<Node>)
    ensures |r| == |ks| && forall i :: 0 <= i < |ks| ==> r[i] == ks[i].value
  {
    seq(|ks|, i requires 0 <= i < |ks| => ks[i].value)
  }

  /** The child nodes, in the order generic_visit takes them. */
  function Children(n: Node): (cs: seq<Node>)
    ensures forall i :: 0 <= i < |cs| ==> cs[i] < n
  {
    match n
    case Call(_, func, args, keywords) =>
      assert forall i :: 0 <= i < |args| ==> args[i] < n;
      assert forall i :: 0 <= i < |keywords| ==> keywords[i] < n && keywords[i].value < keywords[i];
      [func] + args + Values(keywords)
    case Attribute(_, value, _, _) => [value]
    case Other(children) => children
    case _ => []
  }

  // ------------------------------------------------------------- what is flagged

  predicate IsEvalCall(n: Node) {
    n.Call? && n.func.Name? && n.func.id in {"eval", "exec"}
  }

  predicate IsShellCall(n: Node) {
    n.Call? && n.func.Attribute? && n.func.attr in {"run", "call", "Popen"}
  }

  predicate IsShellTrue(k: Keyword) {
    k.arg == Some("shell") && k.value.Constant? && k.value.isTrue
  }

  predicate IsSensitiveChain(n: Node) {
    n.Attribute? && n.load && n.value.Attribute? && n.value.attr in {"password", "token", "secret", "key"}
  }

  function ShellFlags(ks: seq<Keyword>, line: nat): seq<Flag> {
    if ks == [] then []
    else ShellFlags(ks[..|ks| - 1], line) + (if IsShellTrue(ks[|ks| - 1]) then [Flag(SuspiciousPattern, line)] else [])
  }

  /** What one node is flagged for, by itself. */
  function Flags(n: Node): seq<Flag> {
    if IsEvalCall(n) then [Flag(EvalUsage, n.line)]
    else if IsShellCall(n) then ShellFlags(n.keywords, n.line)
    else if IsSensitiveChain(n) then [Flag(NullDereference, n.line)]
    else []
  }

  // --------------------------------------------------------- positions in a tree

  type Path = seq<nat>

  predicate IsPath(n: Node, p: Path)
    decreases p
  {
    p == [] || (p[0] < |Children(n)| && IsPath(Children(n)[p[0]], p[1..]))
  }

  /** The node at a position (at the deepest existing one, off the tree). */
  function At(n: Node, p: Path): Node
    decreases p
  {
    if p == [] || p[0] >= |Children(n)| then n else At(Children(n)[p[0]], p[1..])
  }

  /** Pre-order: a node before what is below it, and left before right. */
  predicate Before(p: Path, q: Path)
    decreases p
  {
    if q == [] then false
    else if p == [] then true
    else p[0] < q[0] || (p[0] == q[0] && Before(p[1..], q[1..]))
  }

  function Prepend(i: nat, ps: seq<Path>): (r: seq<Path>)
    ensures |r| == |ps| && forall k :: 0 <= k < |ps| ==> r[k] == [i] + ps[k]
  {
    seq(|ps|, k requires 0 <= k < |ps| => [i] + ps[k])
  }

  function PathsOf(n: Node): seq<Path>
    decreases n, 1, 0
  {
    [[]] + PathsBelow(n, |Children(n)|)
  }

  /** The positions below the first k children. */
  function PathsBelow(n: Node, k: nat): seq<Path>
    requires k <= |Children(n)|
    decreases n, 0, k
  {
    if k == 0 then [] else PathsBelow(n, k - 1) + Prepend(k - 1, PathsOf(Children(n)[k - 1]))
  }

  predicate InOrder(ps: seq<Path>) {
    forall i, j :: 0 <= i < j < |ps| ==> Before(ps[i], ps[j])
  }

  lemma {:induction false} PathsOfExact(n: Node)
    ensures InOrder(PathsOf(n)) && forall p :: p in PathsOf(n) <==> IsPath(n, p)
    decreases n, 1, 0
  {
    PathsBelowExact(n, |Children(n)|);
    var below := PathsBelow(n, |Children(n)|);
    forall j | 0 <= j < |below| ensures Before([], below[j]) {
      assert below[j] in below;
    }
    forall p ensures p in PathsOf(n) <==> IsPath(n, p) {
      if p == [] { assert PathsOf(n)[0] == []; }
    }
  }

  /** Prefixing the positions of a child gives exactly those below it. */
  lemma PrependExact(n: Node, i: nat, deeper: seq<Path>)
    requires i < |Children(n)| && InOrder(deeper) && forall p :: p in deeper <==> IsPath(Children(n)[i], p)
    ensures InOrder(Prepend(i, deeper))
    ensures forall p :: p in Prepend(i, deeper) <==> p != [] && p[0] == i && IsPath(n, p)
  {
    var last := Prepend(i, deeper);
    forall p ensures p in last <==> p != [] && p[0] == i && IsPath(n, p) {
      if p in last {
        var t :| 0 <= t < |last| && last[t] == p;
        assert p[1..] == deeper[t] && deeper[t] in deeper;
      }
      if p != [] && p[0] == i && IsPath(n, p) {
        assert p[1..] in deeper;
        var t :| 0 <= t < |deeper| && deeper[t] == p[1..];
        assert last[t] == [i] + p[1..] == p;
      }
    }
    forall j, k | 0 <= j < k < |last| ensures Before(last[j], last[k]) {
      assert last[j][1..] == deeper[j] && last[k][1..] == deeper[k];
    }
  }

  lemma {:induction false} PathsBelowExact(n: Node, k: nat)
    requires k <= |Children(n)|
    ensures InOrder(PathsBelow(n, k))
    ensures forall p :: p in PathsBelow(n, k) <==> p != [] && p[0] < k && IsPath(n, p)
    decreases n, 0, k
  {
    if k > 0 {
      PathsBelowExact(n, k - 1);
      var child := Children(n)[k - 1];
      PathsOfExact(child);
      PrependExact(n, k - 1, PathsOf(child));
      var first, last := PathsBelow(n, k - 1), Prepend(k - 1, PathsOf(child));
      forall i, j | 0 <= i < j < |first + last| ensures Before((first + last)[i], (first + last)[j]) {
        if i < |first| <= j {
          assert (first + last)[i] in first && (first + last)[j] in last;
        }
      }
    }
  }

  /** The flags met along a list of positions. */
  function FlagsAlong(n: Node, ps: seq<Path>): seq<Flag> {
    if ps == [] then [] else Flags(At(n, ps[0])) + FlagsAlong(n, ps[1..])
  }

  // ------------------------------------------------------------------ the visitor

  /** What visiting a node adds: its own flags, then those of its children in turn. */
  function Walk(n: Node): seq<Flag>
    decreases n, 1, 0
  {
    Flags(n) + WalkAll(Children(n), n)
  }

  function WalkAll(cs: seq<Node>, parent: Node): seq<Flag>
    requires forall i :: 0 <= i < |cs| ==> cs[i] < parent
    decreases parent, 0, |cs|
  {
    if cs == [] then [] else WalkAll(cs[..|cs| - 1], parent) + Walk(cs[|cs| - 1])
  }

  lemma Assoc<T>(a: seq<T>, b: seq<T>, c: seq<T>)
    ensures a + b + c == a + (b + c)
  {
  }

  lemma WalkAllStep(cs: seq<Node>, i: nat, parent: Node)
    requires i < |cs| && forall j :: 0 <= j < |cs| ==> cs[j] < parent
    ensures WalkAll(cs[..i + 1], parent) == WalkAll(cs[..i], parent) + Walk(cs[i])
  {
    assert cs[..i + 1][..i] == cs[..i];
  }

  class Visitor {
    var findings: seq<Flag>

    constructor ()
      ensures findings == []
    {
      findings := [];
    }

    method Emit(kind: FindingType, line: nat)
      modifies this
      ensures findings == old(findings) + [Flag(kind, line)]
    {
      findings := findings + [Flag(kind, line)];
    }

    method Visit(n: Node)
      modifies this
      ensures findings == old(findings) + Walk(n)
      decreases n, 2, 0
    {
      match n
      case Call(_, _, _, _) => VisitCall(n);
      case Attribute(_, _, _, _) => VisitAttribute(n);
      case _ => GenericVisit(n);
    }

    method VisitCall(n: Node)
      requires n.Call?
      modifies this
      ensures findings == old(findings) + Walk(n)
      decreases n, 1, 0
    {
      CheckCall(n);
      GenericVisit(n);
    }

    method CheckCall(n: Node)
      requires n.Call?
      modifies this
      ensures findings == old(findings) + Flags(n)
    {
      if n.func.Name? && n.func.id in {"eval", "exec"} {
        Emit(EvalUsage, n.line);
      }
      if n.func.Attribute? && n.func.attr in {"run", "call", "Popen"} {
        CheckKeywords(n);
      }
    }

    /** The loop over the keywords of a subprocess call. */
    method CheckKeywords(n: Node)
      requires n.Call?
      modifies this
      ensures findings == old(findings) + ShellFlags(n.keywords, n.line)
    {
      var i := 0;
      while i < |n.keywords|
        invariant 0 <= i <= |n.keywords|
        invariant findings == old(findings) + ShellFlags(n.keywords[..i], n.line)
      {
        assert n.keywords[..i + 1][..i] == n.keywords[..i];
        if IsShellTrue(n.keywords[i]) {
          Emit(SuspiciousPattern, n.line);
        }
        i := i + 1;
      }
      assert n.keywords[..i] == n.keywords;
    }

    method VisitAttribute(n: Node)
      requires n.Attribute?
      modifies this
      ensures findings == old(findings) + Walk(n)
      decreases n, 1, 0
    {
      if n.load && n.value.Attribute? && n.value.attr in {"password", "token", "secret", "key"} {
        Emit(NullDereference, n.line);
      }
      GenericVisit(n);
    }

    /** Visit every child. */
    method GenericVisit(n: Node)
      modifies this
      ensures findings == old(findings) + WalkAll(Children(n), n)
      decreases n, 0, 1
    {
      VisitAll(Children(n), n);
    }

    method VisitAll(cs: seq<Node>, parent: Node)
      requires forall i :: 0 <= i < |cs| ==> cs[i] < parent
      modifies this
      ensures findings == old(findings) + WalkAll(cs, parent)
      decreases parent, 0, 0
    {
      ghost var start, done: seq<Flag> := findings, [];
      var i := 0;
      while i < |cs|
        invariant 0 <= i <= |cs|
        invariant findings == start + done && done == WalkAll(cs[..i], parent)
      {
        WalkAllStep(cs, i, parent);
        ghost var added := Walk(cs[i]);
        Visit(cs[i]);
        Assoc(start, done, added);
        done := done + added;
        i := i + 1;
      }
      assert cs[..i] == cs;
    }
  }

  lemma {:induction false} FlagsConcat(n: Node, ps: seq<Path>, qs: seq<Path>)
    ensures FlagsAlong(n, ps + qs) == FlagsAlong(n, ps) + FlagsAlong(n, qs)
  {
    if ps == [] {
      assert ps + qs == qs;
    } else {
      assert (ps + qs)[1..] == ps[1..] + qs;
      FlagsConcat(n, ps[1..], qs);
    }
  }

  lemma {:induction false} FlagsPrepend(n: Node, i: nat, ps: seq<Path>)
    requires i < |Children(n)|
    ensures FlagsAlong(n, Prepend(i, ps)) == FlagsAlong(Children(n)[i], ps)
  {
    if ps != [] {
      assert ([i] + ps[0])[1..] == ps[0];
      assert Prepend(i, ps)[1..] == Prepend(i, ps[1..]);
      FlagsPrepend(n, i, ps[1..]);
    }
  }

  /** Walking the tree flags exactly what stands at its positions, each position once, in pre-order. */
  lemma WalkVisitsEveryPosition(n: Node)
    ensures InOrder(PathsOf(n)) && forall p :: p in PathsOf(n) <==> IsPath(n, p)
    ensures Walk(n) == FlagsAlong(n, PathsOf(n))
  {
    PathsOfExact(n);
    WalkAlongPaths(n);
  }

  lemma {:induction false} WalkAlongPaths(n: Node)
    ensures Walk(n) == FlagsAlong(n, PathsOf(n))
    decreases n, 1, 0
  {
    var below := PathsBelow(n, |Children(n)|);
    var root: seq<Path> := [[]];
    WalkAllPositions(n, |Children(n)|, Children(n));
    FlagsConcat(n, root, below);
    assert FlagsAlong(n, root) == Flags(n) by { assert root[1..] == []; }
  }

  /** Flags met below the earlier children, then those met in the next child. */
  lemma FlagsJoin(n: Node, i: nat, first: seq<Path>, deeper: seq<Path>, all: seq<Path>)
    requires i < |Children(n)| && all == first + Prepend(i, deeper)
    ensures FlagsAlong(n, all) == FlagsAlong(n, first) + FlagsAlong(Children(n)[i], deeper)
  {
    FlagsPrepend(n, i, deeper);
    FlagsConcat(n, first, Prepend(i, deeper));
  }

  lemma {:induction false} WalkAllPositions(n: Node, k: nat, cs: seq<Node>)
    requires k <= |Children(n)| && cs == Children(n)[..k]
    ensures WalkAll(cs, n) == FlagsAlong(n, PathsBelow(n, k))
    decreases n, 0, k
  {
    if k > 0 {
      var child := Children(n)[k - 1];
      assert cs[..k - 1] == Children(n)[..k - 1];
      FlagsJoin(n, k - 1, PathsBelow(n, k - 1), PathsOf(child), PathsBelow(n, k));
      WalkAllPositions(n, k - 1, cs[..k - 1]);
      WalkAlongPaths(child);
    }
  }
}
