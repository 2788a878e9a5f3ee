/**
  What the visitor flags, said of the tree itself: by the constructors of a node
  and not by the walk's own idea of children and positions.
*/
module TreeFlags {
  import opened Schema
  import opened SyntaxWalk

  /** m is n, or stands somewhere in its function, arguments, keyword values, attribute value, or other parts. */
  ghost predicate LiesIn(m: Node, n: Node)
    decreases n
  {
    || m == n
    || match n
       case Call(_, func, args, keywords) =>
         || LiesIn(m, func)
         || (exists i :: 0 <= i < |args| && LiesIn(m, args[i]))
         || (exists i :: 0 <= i < |keywords| && keywords[i] < n && LiesIn(m, keywords[i].value))
       case Attribute(_, value, _, _) => LiesIn(m, value)
       case Other(children) => exists i :: 0 <= i < |children| && LiesIn(m, children[i])
       case Name(_) => false
       case Constant(_) => false
  }

  /** m is a call or an attribute for which this flag is due. */
  predicate Deserves(m: Node, f: Flag) {
    match m
    case Call(line, func, _, keywords) =>
      || (f == Flag(EvalUsage, line) && (func == Name("eval") || func == Name("exec")))
      || (f == Flag(SuspiciousPattern, line)
          && func.Attribute? && (func.attr == "run" || func.attr == "call" || func.attr == "Popen")
          && exists i :: 0 <= i < |keywords| && keywords[i] == Keyword(Some("shell"), Constant(true)))
    case Attribute(line, value, _, load) =>
      && f == Flag(NullDereference, line) && load && value.Attribute?
      && (value.attr == "password" || value.attr == "token" || value.attr == "secret" || value.attr == "key")
    case _ => false
  }

  lemma {:induction false} ShellFlagsIff(ks: seq<Keyword>, line: nat, f: Flag)
    ensures f in ShellFlags(ks, line) <==>
      f == Flag(SuspiciousPattern, line) && exists i :: 0 <= i < |ks| && ks[i] == Keyword(Some("shell"), Constant(true))
  {
    if ks != [] {
      var init, last := ks[..|ks| - 1], ks[|ks| - 1];
      ShellFlagsIff(init, line, f);
      assert forall i :: 0 <= i < |init| ==> init[i] == ks[i];
      assert IsShellTrue(last) <==> last == Keyword(Some("shell"), Constant(true));
    }
  }

  /** A node is flagged by itself for exactly what it deserves. */
  lemma OwnFlags(n: Node, f: Flag)
    ensures f in Flags(n) <==> Deserves(n, f)
  {
    if n.Call? { ShellFlagsIff(n.keywords, n.line, f); }
  }

  /** f is due for something that lies in n. */
  ghost predicate DueIn(n: Node, f: Flag) {
    exists m :: LiesIn(m, n) && Deserves(m, f)
  }

  ghost predicate FlaggedIn(ns: seq<Node>, f: Flag) {
    exists i :: 0 <= i < |ns| && f in Walk(ns[i])
  }

  lemma FlaggedInSnoc(ns: seq<Node>, n: Node, f: Flag)
    ensures FlaggedIn(ns + [n], f) <==> FlaggedIn(ns, f) || f in Walk(n)
  {
    var all := ns + [n];
    assert all[|ns|] == n;
    if i :| 0 <= i < |ns| && f in Walk(ns[i]) { assert all[i] == ns[i]; }
  }

  lemma {:induction false} WalkAllIff(cs: seq<Node>, parent: Node, f: Flag)
    requires forall i :: 0 <= i < |cs| ==> cs[i] < parent
    ensures f in WalkAll(cs, parent) <==> FlaggedIn(cs, f)
    decreases |cs|
  {
    if cs != [] {
      var init, last := cs[..|cs| - 1], cs[|cs| - 1];
      assert cs == init + [last];
      WalkAllIff(init, parent, f);
      FlaggedInSnoc(init, last, f);
    }
  }

  /** What is due in a node is due for the node or in one of its parts. */
  ghost predicate DueInPart(n: Node, f: Flag) {
    match n
    case Call(_, func, args, keywords) =>
      || DueIn(func, f)
      || (exists i :: 0 <= i < |args| && DueIn(args[i], f))
      || (exists i :: 0 <= i < |keywords| && DueIn(keywords[i].value, f))
    case Attribute(_, value, _, _) => DueIn(value, f)
    case Other(children) => exists i :: 0 <= i < |children| && DueIn(children[i], f)
    case _ => false
  }

  lemma DueSplits(n: Node, f: Flag)
    ensures DueIn(n, f) <==> Deserves(n, f) || DueInPart(n, f)
  {
    if n.Call? {
      assert forall i :: 0 <= i < |n.keywords| ==> n.keywords[i] < n;
    }
  }

  /** Every node is walked, whatever it hangs from, and only what is due is flagged. */
  lemma {:induction false} WalkFlagsExactlyTheDue(n: Node, f: Flag)
    ensures f in Walk(n) <==> DueIn(n, f)
    decreases n
  {
    OwnFlags(n, f);
    DueSplits(n, f);
    WalkAllIff(Children(n), n, f);
    forall i | 0 <= i < |Children(n)| ensures f in Walk(Children(n)[i]) <==> DueIn(Children(n)[i], f) {
      WalkFlagsExactlyTheDue(Children(n)[i], f);
    }
    PartsAreChildren(n, f);
  }

  lemma PartsAreChildren(n: Node, f: Flag)
    ensures DueInPart(n, f) <==> exists i :: 0 <= i < |Children(n)| && DueIn(Children(n)[i], f)
  {
    var cs := Children(n);
    match n
    case Call(_, func, args, keywords) =>
      assert cs[0] == func;
      assert forall i :: 0 <= i < |args| ==> cs[i + 1] == args[i];
      assert forall i :: 0 <= i < |keywords| ==> cs[i + 1 + |args|] == keywords[i].value;
    case Attribute(_, value, _, _) => assert cs[0] == value;
    case _ =>
  }

  /** The walks of some nodes, one after another. */
  function Walks(ns: seq<Node>): seq<Flag> {
    if ns == [] then [] else Walks(ns[..|ns| - 1]) + Walk(ns[|ns| - 1])
  }

  lemma {:induction false} WalkAllIsWalks(cs: seq<Node>, parent: Node)
    requires forall i :: 0 <= i < |cs| ==> cs[i] < parent
    ensures WalkAll(cs, parent) == Walks(cs)
    decreases |cs|
  {
    if cs != [] { WalkAllIsWalks(cs[..|cs| - 1], parent); }
  }

  lemma {:induction false} WalksConcat(xs: seq<Node>, ys: seq<Node>)
    ensures Walks(xs + ys) == Walks(xs) + Walks(ys)
  {
    if ys == [] {
      assert xs + ys == xs;
    } else {
      assert (xs + ys)[..|xs + ys| - 1] == xs + ys[..|ys| - 1];
      WalksConcat(xs, ys[..|ys| - 1]);
      Assoc(Walks(xs), Walks(ys[..|ys| - 1]), Walk(ys[|ys| - 1]));
    }
  }

  /** In which order, and each once: a node's own flags, then its parts from left to right. */
  lemma WalkInOrder(n: Node)
    ensures Walk(n) == Flags(n) + match n
      case Call(_, func, args, keywords) => Walk(func) + Walks(args) + Walks(Values(keywords))
      case Attribute(_, value, _, _) => Walk(value)
      case Other(children) => Walks(children)
      case Name(_) => []
      case Constant(_) => []
  {
    WalkAllIsWalks(Children(n), n);
    match n
    case Call(_, func, args, keywords) =>
      WalksConcat([func] + args, Values(keywords));
      WalksConcat([func], args);
      WalksOne(func);
    case Attribute(_, value, _, _) => WalksOne(value);
    case _ =>
  }

  lemma WalksOne(n: Node)
    ensures Walks([n]) == Walk(n)
  {
    assert [n][..0] == [];
  }
}
