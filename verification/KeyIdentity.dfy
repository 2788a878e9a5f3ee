/**
  When the cooldown key tells two alerts apart (watchers/schema.py, lines
  333-336 and 414-420), and which alerts share one though they are about
  different targets.
*/
module KeyIdentity {
  import opened Schema
  import opened Correlation
  import opened Fingerprint

  /** One target: text up to case, null counting as empty.  The code finding's type plays no part. */
  predicate SameTarget(lower: string -> string, api: Finding, code: Finding, api': Finding, code': Finding) {
    && lower(api.service) == lower(api'.service)
    && lower(TextOr(api.endpoint)) == lower(TextOr(api'.endpoint))
    && api.kind == api'.kind
    && lower(TextOr(code.file)) == lower(TextOr(code'.file))
    && code.line == code'.line
  }

  predicate IsTypeText(s: string) {
    TypeText(TypeOf(s)) == s
  }

  /**
    A separator in the service or the endpoint, or a piece of the file, other
    than the last, that reads like a finding type.
  */
  predicate Ambiguous(lower: string -> string, api: Finding, code: Finding) {
    || SEPARATOR in api.service
    || SEPARATOR in TextOr(api.endpoint)
    || exists i :: 0 <= i < |Split(TextOr(code.file))| - 1 && IsTypeText(lower(Split(TextOr(code.file))[i]))
  }

  lemma LineTextInjective(code: Finding, code': Finding)
    requires Numbered(code) && Numbered(code') && LineText(code.line) == LineText(code'.line)
    ensures code.line == code'.line
  {
    if code.line.Some? { DecimalRoundTrip(code.line.value); }
    if code'.line.Some? { DecimalRoundTrip(code'.line.value); }
  }

  lemma TargetPlain(api: Finding, code: Finding)
    requires Numbered(code)
    ensures TargetOf(api, code).Plain()
  {
    TypeTextPlain(api.kind);
  }

  lemma TypeTextIs(t: FindingType)
    ensures IsTypeText(TypeText(t))
  {
    TypeRoundTrip(t);
  }

  /** No separator in service and endpoint, and no piece of the file but its last reads like `kind`. */
  predicate SplitsOneWay(lower: string -> string, t: Target, kind: string) {
    && SEPARATOR !in t.service && SEPARATOR !in t.endpoint
    && forall i :: 0 <= i < |Split(t.file)| - 1 ==> lower(Split(t.file)[i]) != kind
  }

  predicate SameTexts(lower: string -> string, t: Target, t': Target) {
    && lower(t.service) == lower(t'.service) && lower(t.endpoint) == lower(t'.endpoint)
    && t.kind == t'.kind && lower(t.file) == lower(t'.file) && t.line == t'.line
  }

  lemma SameTextsIff(lower: string -> string, api: Finding, code: Finding, api': Finding, code': Finding)
    requires Numbered(code) && Numbered(code')
    ensures SameTexts(lower, TargetOf(api, code), TargetOf(api', code')) <==> SameTarget(lower, api, code, api', code')
  {
    TypeRoundTrip(api.kind);
    TypeRoundTrip(api'.kind);
    if LineText(code.line) == LineText(code'.line) { LineTextInjective(code, code'); }
  }

  lemma SameKeySameTexts(lower: string -> string, t: Target, t': Target)
    requires LowersLikePython(lower) && t.Plain() && t'.Plain() && SplitsOneWay(lower, t, t'.kind)
    requires t.Key(lower) == t'.Key(lower)
    ensures SameTexts(lower, t, t')
  {
    KeySplits(lower, t);
    KeySplits(lower, t');
    JoinSplit(t.service);
    JoinSplit(t.endpoint);
    LowerOfSplit(lower, t.service);
    LowerOfSplit(lower, t'.service);
    LowerOfSplit(lower, t.endpoint);
    LowerOfSplit(lower, t'.endpoint);
    LowerOfSplit(lower, t.file);
    LowerOfSplit(lower, t'.file);
    SamePieces(Lowered(lower, Split(t.service)), Lowered(lower, Split(t.endpoint)), t.kind, Lowered(lower, Split(t.file)), t.line,
               Lowered(lower, Split(t'.service)), Lowered(lower, Split(t'.endpoint)), t'.kind, Lowered(lower, Split(t'.file)), t'.line);
  }

  /** The same target always has the same key. */
  lemma SameTargetSameKey(lower: string -> string, api: Finding, code: Finding, api': Finding, code': Finding)
    requires Numbered(code) && Numbered(code') && SameTarget(lower, api, code, api', code')
    ensures AlertKey(lower, api, code) == AlertKey(lower, api', code')
  {
  }

  /** An unambiguous target shares its key with no other, however that one is written. */
  lemma SameKeyIffSameTarget(lower: string -> string, api: Finding, code: Finding, api': Finding, code': Finding)
    requires LowersLikePython(lower) && Numbered(code) && Numbered(code') && !Ambiguous(lower, api, code)
    ensures AlertKey(lower, api, code) == AlertKey(lower, api', code') <==> SameTarget(lower, api, code, api', code')
  {
    if AlertKey(lower, api, code) == AlertKey(lower, api', code') {
      TargetPlain(api, code);
      TargetPlain(api', code');
      TypeTextIs(api'.kind);
      SameKeySameTexts(lower, TargetOf(api, code), TargetOf(api', code'));
      SameTextsIff(lower, api, code, api', code');
    }
  }

  /** The text in full: five fields, null as nothing, with a bar between neighbours. */
  lemma KeyInFull(lower: string -> string, api: Finding, code: Finding)
    requires LowersLikePython(lower) && Numbered(code)
    ensures AlertKey(lower, api, code) ==
      lower(api.service) + "|" + (lower(if api.endpoint == None then "" else api.endpoint.value) + "|" + (TypeText(api.kind) + "|" +
      (lower(if code.file == None then "" else code.file.value) + "|" + (if code.line == None then "" else Decimal(code.line.value)))))
  {
    var t := TargetOf(api, code);
    TargetPlain(api, code);
    PlainKept(lower, t.kind);
    PlainKept(lower, t.line);
    FiveParts(lower(t.service), lower(t.endpoint), t.kind, lower(t.file), t.line);
  }

  lemma FiveParts(a: string, b: string, c: string, d: string, e: string)
    ensures Join([a, b, c, d, e]) == a + "|" + (b + "|" + (c + "|" + (d + "|" + e)))
  {
    assert [a, b, c, d, e][1..] == [b, c, d, e] && [b, c, d, e][1..] == [c, d, e] && [c, d, e][1..] == [d, e] && [d, e][1..] == [e];
    assert Join([d, e]) == d + "|" + e;
    assert Join([c, d, e]) == c + "|" + Join([d, e]);
    assert Join([b, c, d, e]) == b + "|" + Join([c, d, e]);
  }

  // --------------------------------------------------- other targets with the key

  /** The pair passes the scope test, and building its alert is not refused. */
  predicate BecomesAlert(window: real, api: Finding, code: Finding) {
    ValidFinding(api) && ValidFinding(code) && ShareScope(window, api, code) && !HasEmptyText(api, code)
  }

  /** Another alert, about another target, with the same key. */
  ghost predicate Collides(lower: string -> string, window: real, api: Finding, code: Finding, api': Finding, code': Finding)
    requires Numbered(code)
  {
    && BecomesAlert(window, api', code')
    && AlertKey(lower, api', code') == AlertKey(lower, api, code)
    && !SameTarget(lower, api, code, api', code')
  }

  /** A code issue that the knowledge base pairs with this API type, if there is any. */
  function IssueFor(kind: FindingType): FindingType {
    if kind.AuthFailure? || kind.RateLimitHit? then MissingAuthCheck
    else if kind.HighLatency? then SqlInjectionRisk
    else NullDereference
  }

  lemma IssueForKnown(kind: FindingType, issue: FindingType)
    requires Known(kind, issue)
    ensures Known(kind, IssueFor(kind))
  {
  }

  /** Everything before the line, cut at every separator. */
  function AllPieces(t: Target): seq<string> {
    Split(t.service) + (Split(t.endpoint) + ([t.kind] + Split(t.file)))
  }

  /** The alert's own cut: where its endpoint begins, and where its type stands. */
  function OwnCut(t: Target): (nat, nat) {
    (|Split(t.service)|, |Split(t.service)| + |Split(t.endpoint)|)
  }

  /** There is a piece for each field, and the file has one. */
  predicate IsCut(ps: seq<string>, a: nat, j: nat) {
    1 <= a < j < |ps| - 1
  }

  /** Service before piece a, endpoint before piece j, piece j for the type, and the file after it. */
  function CutAt(ps: seq<string>, line: string, a: nat, j: nat): Target
    requires IsCut(ps, a, j)
  {
    Target(Join(ps[..a]), Join(ps[a..j]), ps[j], Join(ps[j + 1..]), line)
  }

  /** Up to case, a text within the limit; and one that may also be blank. */
  ghost predicate TextLike(lower: string -> string, s: string, maximum: nat) {
    exists w :: lower(w) == lower(s) && IsText(w, maximum)
  }

  ghost predicate FitsLike(lower: string -> string, s: string, maximum: nat) {
    exists w :: lower(w) == lower(s) && |w| <= maximum
  }

  predicate ReadsAsType(lower: string -> string, kind: string) {
    IsTypeText(lower(kind))
  }

  /** Without a route only the knowledge base can match it. */
  predicate Matchable(endpoint: string, kind: string) {
    endpoint == "" ==> Known(TypeOf(kind), IssueFor(TypeOf(kind)))
  }

  /** The key cut elsewhere, into texts that some alert may carry. */
  ghost predicate OtherCut(lower: string -> string, t: Target, a: nat, j: nat) {
    && IsCut(AllPieces(t), a, j) && (a, j) != OwnCut(t)
    && var u := CutAt(AllPieces(t), t.line, a, j);
      && ReadsAsType(lower, u.kind)
      && TextLike(lower, u.service, 200) && FitsLike(lower, u.endpoint, 2048) && FitsLike(lower, u.file, 4096)
      && Matchable(u.endpoint, lower(u.kind))
  }

  /** The same with plain limits on substrings of the alert's own texts. */
  predicate OtherFittingCut(lower: string -> string, t: Target, a: nat, j: nat) {
    && IsCut(AllPieces(t), a, j) && (a, j) != OwnCut(t)
    && var u := CutAt(AllPieces(t), t.line, a, j);
      && ReadsAsType(lower, u.kind)
      && IsText(u.service, 200) && |u.endpoint| <= 2048 && |u.file| <= 4096
      && Matchable(u.endpoint, lower(u.kind))
  }

  lemma LoweredConcat(lower: string -> string, xs: seq<string>, ys: seq<string>)
    ensures Lowered(lower, xs + ys) == Lowered(lower, xs) + Lowered(lower, ys)
  {
  }

  lemma AllPiecesClean(lower: string -> string, t: Target)
    requires LowersLikePython(lower) && t.Plain()
    ensures Clean(AllPieces(t))
  {
    JoinSplit(t.service);
    JoinSplit(t.endpoint);
    JoinSplit(t.file);
    PlainKept(lower, t.kind);
  }

  lemma LineLast(ss: seq<string>, es: seq<string>, kind: string, fs: seq<string>, line: string)
    ensures Pieces(ss, es, kind, fs, line) == (ss + (es + ([kind] + fs))) + [line]
  {
  }

  lemma LoweredPieces(lower: string -> string, ss: seq<string>, es: seq<string>, kind: string, fs: seq<string>)
    requires lower(kind) == kind
    ensures Lowered(lower, ss + (es + ([kind] + fs))) == Lowered(lower, ss) + (Lowered(lower, es) + ([kind] + Lowered(lower, fs)))
  {
    LoweredConcat(lower, ss, es + ([kind] + fs));
    LoweredConcat(lower, es, [kind] + fs);
    LoweredConcat(lower, [kind], fs);
    assert Lowered(lower, [kind]) == [kind];
  }

  lemma KeyOfAllPieces(lower: string -> string, t: Target)
    requires LowersLikePython(lower) && t.Plain()
    ensures KeyPieces(lower, t) == Lowered(lower, AllPieces(t)) + [t.line]
  {
    PlainKept(lower, t.kind);
    LoweredPieces(lower, Split(t.service), Split(t.endpoint), t.kind, Split(t.file));
    LineLast(Lowered(lower, Split(t.service)), Lowered(lower, Split(t.endpoint)), t.kind, Lowered(lower, Split(t.file)), t.line);
  }

  lemma LoweredSlice(lower: string -> string, ps: seq<string>, i: nat, k: nat)
    requires i <= k <= |ps|
    ensures Lowered(lower, ps[i..k]) == Lowered(lower, ps)[i..k]
  {
  }

  /** The pieces of a text can be read off its lowered form. */
  lemma SplitOfLower(lower: string -> string, ps: seq<string>, s: string)
    requires LowersLikePython(lower) && Clean(ps) && lower(s) == lower(Join(ps))
    ensures Split(lower(s)) == Lowered(lower, ps)
  {
    LowerJoin(lower, ps);
    LoweredClean(lower, ps);
    SplitJoin(Lowered(lower, ps));
  }

  // ------------------------------------------------ a collision comes from a cut

  lemma JoinTake(lower: string -> string, ps: seq<string>, a: nat)
    requires LowersLikePython(lower) && 1 <= a <= |ps|
    ensures lower(Join(ps[..a])) == Join(Lowered(lower, ps)[..a])
  {
    LowerJoin(lower, ps[..a]);
    assert Lowered(lower, ps[..a]) == Lowered(lower, ps)[..a];
  }

  lemma JoinMiddle(lower: string -> string, ps: seq<string>, a: nat, j: nat)
    requires LowersLikePython(lower) && a < j <= |ps|
    ensures lower(Join(ps[a..j])) == Join(Lowered(lower, ps)[a..j])
  {
    LowerJoin(lower, ps[a..j]);
    assert Lowered(lower, ps[a..j]) == Lowered(lower, ps)[a..j];
  }

  lemma JoinDrop(lower: string -> string, ps: seq<string>, j: nat)
    requires LowersLikePython(lower) && j < |ps|
    ensures lower(Join(ps[j..])) == Join(Lowered(lower, ps)[j..])
  {
    LowerJoin(lower, ps[j..]);
    assert Lowered(lower, ps[j..]) == Lowered(lower, ps)[j..];
  }

  /** The slices that another way to cut the pieces names. */
  lemma SlicesOfPieces(qs: seq<string>, line: string, ss: seq<string>, es: seq<string>, kind: string, fs: seq<string>, line': string)
    requires qs + [line] == Pieces(ss, es, kind, fs, line')
    ensures var a, j := |ss|, |ss| + |es|;
      && |qs| == j + 1 + |fs| && line' == line
      && qs[..a] == ss && qs[a..j] == es && qs[j] == kind && qs[j + 1..] == fs
  {
    var ps := qs + [line];
    TypeAt(ss, es, kind, fs, line', ps);
    assert qs == ps[..|qs|];
    assert qs[|ss| + |es| + 1..] == ps[|ss| + |es| + 1..|ps| - 1];
  }

  lemma SameKeySamePieces(lower: string -> string, t: Target, t': Target)
    requires LowersLikePython(lower) && t.Plain() && t'.Plain() && t.Key(lower) == t'.Key(lower)
    ensures Lowered(lower, AllPieces(t)) + [t.line] == KeyPieces(lower, t')
  {
    KeySplits(lower, t);
    KeySplits(lower, t');
    KeyOfAllPieces(lower, t);
  }

  /** t' is written as u is, up to case; its type is in lower case. */
  predicate WrittenAs(lower: string -> string, t': Target, u: Target) {
    && lower(t'.service) == lower(u.service) && lower(t'.endpoint) == lower(u.endpoint)
    && t'.kind == lower(u.kind) && lower(t'.file) == lower(u.file) && t'.line == u.line
  }

  /** The fields of t' are the joined slices of qs. */
  predicate FieldsAt(lower: string -> string, qs: seq<string>, t': Target, a: nat, j: nat) {
    && IsCut(qs, a, j)
    && lower(t'.service) == Join(qs[..a]) && lower(t'.endpoint) == Join(qs[a..j])
    && t'.kind == qs[j] && lower(t'.file) == Join(qs[j + 1..])
  }

  lemma FieldsOfKeyPieces(lower: string -> string, qs: seq<string>, line: string, t': Target)
    requires LowersLikePython(lower) && qs + [line] == KeyPieces(lower, t')
    ensures FieldsAt(lower, qs, t', OwnCut(t').0, OwnCut(t').1) && t'.line == line
  {
    var ss, es, fs := Lowered(lower, Split(t'.service)), Lowered(lower, Split(t'.endpoint)), Lowered(lower, Split(t'.file));
    SlicesOfPieces(qs, line, ss, es, t'.kind, fs, t'.line);
    LowerOfSplit(lower, t'.service);
    LowerOfSplit(lower, t'.endpoint);
    LowerOfSplit(lower, t'.file);
  }

  /** Joining and lowering the slices of a cut can be done in either order. */
  lemma LowerOfCut(lower: string -> string, ps: seq<string>, line: string, a: nat, j: nat)
    requires LowersLikePython(lower) && IsCut(ps, a, j)
    ensures var u, qs := CutAt(ps, line, a, j), Lowered(lower, ps);
      && lower(u.service) == Join(qs[..a]) && lower(u.endpoint) == Join(qs[a..j])
      && lower(u.kind) == qs[j] && lower(u.file) == Join(qs[j + 1..])
  {
    JoinTake(lower, ps, a);
    JoinMiddle(lower, ps, a, j);
    JoinDrop(lower, ps, j + 1);
  }

  lemma FieldsOfOther(lower: string -> string, t: Target, t': Target)
    requires LowersLikePython(lower) && t.Plain() && t'.Plain() && t.Key(lower) == t'.Key(lower)
    ensures FieldsAt(lower, Lowered(lower, AllPieces(t)), t', OwnCut(t').0, OwnCut(t').1) && t'.line == t.line
  {
    SameKeySamePieces(lower, t, t');
    FieldsOfKeyPieces(lower, Lowered(lower, AllPieces(t)), t.line, t');
  }

  lemma WrittenByFields(lower: string -> string, ps: seq<string>, t': Target, a: nat, j: nat)
    requires LowersLikePython(lower) && FieldsAt(lower, Lowered(lower, ps), t', a, j)
    ensures IsCut(ps, a, j) && WrittenAs(lower, t', CutAt(ps, t'.line, a, j))
  {
    LowerOfCut(lower, ps, t'.line, a, j);
  }

  /** Where the other target's fields lie among the pieces of this one. */
  lemma CutOfOther(lower: string -> string, t: Target, t': Target)
    requires LowersLikePython(lower) && t.Plain() && t'.Plain() && t.Key(lower) == t'.Key(lower)
    ensures IsCut(AllPieces(t), OwnCut(t').0, OwnCut(t').1)
    ensures WrittenAs(lower, t', CutAt(AllPieces(t), t.line, OwnCut(t').0, OwnCut(t').1))
  {
    FieldsOfOther(lower, t, t');
    WrittenByFields(lower, AllPieces(t), t', OwnCut(t').0, OwnCut(t').1);
  }

  lemma OwnJoins(ss: seq<string>, es: seq<string>, kind: string, fs: seq<string>, ps: seq<string>, a: nat, j: nat)
    requires ps == ss + (es + ([kind] + fs)) && a == |ss| && j == |ss| + |es|
    ensures Join(ps[..a]) == Join(ss) && Join(ps[a..j]) == Join(es) && ps[j] == kind && Join(ps[j + 1..]) == Join(fs)
  {
    assert ps[..a] == ss && ps[a..j] == es && ps[j + 1..] == fs;
  }

  /** Cut where it was put together, the target comes back. */
  lemma OwnTexts(t: Target)
    ensures IsCut(AllPieces(t), OwnCut(t).0, OwnCut(t).1)
    ensures CutAt(AllPieces(t), t.line, OwnCut(t).0, OwnCut(t).1) == t
  {
    JoinOfSplit(t.service);
    JoinOfSplit(t.endpoint);
    JoinOfSplit(t.file);
    OwnJoins(Split(t.service), Split(t.endpoint), t.kind, Split(t.file), AllPieces(t), OwnCut(t).0, OwnCut(t).1);
  }

  lemma JoinOfSplit(s: string)
    ensures Join(Split(s)) == s && |Split(s)| >= 1
  {
    JoinSplit(s);
  }

  /** What an alert's texts satisfy. */
  predicate Fitting(t: Target) {
    && IsText(t.service, 200) && |t.endpoint| <= 2048 && |t.file| <= 4096 && IsTypeText(t.kind)
    && Matchable(t.endpoint, t.kind)
  }

  lemma OtherIsCut(lower: string -> string, t: Target, t': Target)
    requires LowersLikePython(lower) && t.Plain() && t'.Plain() && t.Key(lower) == t'.Key(lower)
    requires Fitting(t') && !SameTexts(lower, t, t')
    ensures OtherCut(lower, t, OwnCut(t').0, OwnCut(t').1)
  {
    CutOfOther(lower, t, t');
    OwnTexts(t);
    PlainKept(lower, t.kind);
    PlainKept(lower, "");
  }

  lemma AlertFits(window: real, api: Finding, code: Finding)
    requires BecomesAlert(window, api, code)
    ensures Fitting(TargetOf(api, code))
  {
    TypeTextIs(api.kind);
    TypeRoundTrip(api.kind);
    if !Truthy(api.endpoint) { IssueForKnown(api.kind, code.kind); }
  }

  lemma CollisionIsCut(lower: string -> string, window: real, api: Finding, code: Finding, api': Finding, code': Finding)
    requires LowersLikePython(lower) && Numbered(code) && Collides(lower, window, api, code, api', code')
    ensures var cut := OwnCut(TargetOf(api', code')); OtherCut(lower, TargetOf(api, code), cut.0, cut.1)
  {
    TargetPlain(api, code);
    TargetPlain(api', code');
    SameTextsIff(lower, api, code, api', code');
    AlertFits(window, api', code');
    OtherIsCut(lower, TargetOf(api, code), TargetOf(api', code'));
  }

  // ------------------------------------------------ and every other cut is a collision

  lemma SameKeyByCut(lower: string -> string, t: Target, t': Target, a: nat, j: nat)
    requires LowersLikePython(lower) && t.Plain() && t'.Plain()
    requires IsCut(AllPieces(t), a, j) && WrittenAs(lower, t', CutAt(AllPieces(t), t.line, a, j))
    ensures t'.Key(lower) == t.Key(lower)
  {
    var ps := AllPieces(t);
    AllPiecesClean(lower, t);
    KeySplits(lower, t);
    KeyOfAllPieces(lower, t);
    KeyOfPieces(lower, t', ps[..a], ps[a..j], ps[j + 1..]);
    PiecesOfCut(lower, ps, a, j, t.line);
  }

  /** Texts that are the same up to case have equally many pieces. */
  lemma PieceCount(lower: string -> string, ps: seq<string>, s: string)
    requires LowersLikePython(lower) && Clean(ps) && lower(Join(ps)) == lower(s)
    ensures |ps| == |Split(s)|
  {
    JoinSplit(s);
    SplitOfLower(lower, ps, s);
    SplitOfLower(lower, Split(s), s);
  }

  lemma CleanSlice(ps: seq<string>, i: nat, k: nat)
    requires Clean(ps) && i < k <= |ps|
    ensures Clean(ps[i..k])
  {
  }

  lemma CountsOfCut(lower: string -> string, ps: seq<string>, line: string, a: nat, j: nat, service: string, endpoint: string)
    requires LowersLikePython(lower) && Clean(ps) && IsCut(ps, a, j)
    requires var u := CutAt(ps, line, a, j); lower(u.service) == lower(service) && lower(u.endpoint) == lower(endpoint)
    ensures a == |Split(service)| && j == a + |Split(endpoint)|
  {
    CleanSlice(ps, 0, a);
    CleanSlice(ps, a, j);
    assert ps[0..a] == ps[..a];
    PieceCount(lower, ps[..a], service);
    PieceCount(lower, ps[a..j], endpoint);
  }

  lemma OtherCutOtherTexts(lower: string -> string, t: Target, a: nat, j: nat)
    requires LowersLikePython(lower) && t.Plain() && IsCut(AllPieces(t), a, j)
    requires var u := CutAt(AllPieces(t), t.line, a, j); lower(u.service) == lower(t.service) && lower(u.endpoint) == lower(t.endpoint)
    ensures (a, j) == OwnCut(t)
  {
    AllPiecesClean(lower, t);
    CountsOfCut(lower, AllPieces(t), t.line, a, j, t.service, t.endpoint);
  }

  lemma PiecesOfCut(lower: string -> string, ps: seq<string>, a: nat, j: nat, line: string)
    requires a <= j < |ps|
    ensures Pieces(Lowered(lower, ps[..a]), Lowered(lower, ps[a..j]), lower(ps[j]), Lowered(lower, ps[j + 1..]), line)
         == Lowered(lower, ps) + [line]
  {
    LoweredSlice(lower, ps, 0, a);
    LoweredSlice(lower, ps, a, j);
    LoweredSlice(lower, ps, j + 1, |ps|);
    assert ps[0..a] == ps[..a] && ps[j + 1..|ps|] == ps[j + 1..];
    var qs := Lowered(lower, ps);
    assert qs == qs[..a] + (qs[a..j] + ([qs[j]] + qs[j + 1..]));
  }

  /** Null for an empty text, as an alert wants it. */
  function Optional(s: string): Option<string> {
    if s == "" then None else Some(s)
  }

  /** The pair that carries these texts: matched by route if it has one, else through the knowledge base. */
  function Carrier(api: Finding, code: Finding, service: string, endpoint: string, kind: FindingType, file: string): (Finding, Finding) {
    (api.(service := service, endpoint := Optional(endpoint), kind := kind),
     code.(service := service, endpoint := Optional(endpoint), file := Optional(file),
           kind := if endpoint == "" then IssueFor(kind) else code.kind))
  }

  lemma CarrierBecomesAlert(window: real, api: Finding, code: Finding, service: string, endpoint: string, kind: FindingType,
                            file: string)
    requires BecomesAlert(window, api, code)
    requires IsText(service, 200) && |endpoint| <= 2048 && |file| <= 4096
    requires endpoint == "" ==> Known(kind, IssueFor(kind))
    ensures var pair := Carrier(api, code, service, endpoint, kind, file); BecomesAlert(window, pair.0, pair.1)
  {
  }

  /** The pair that carries the texts of another cut is about another target and has the same key. */
  lemma CarrierCollides(lower: string -> string, window: real, api: Finding, code: Finding, a: nat, j: nat,
                        service: string, endpoint: string, kind: FindingType, file: string)
    requires LowersLikePython(lower) && BecomesAlert(window, api, code)
    requires IsText(service, 200) && |endpoint| <= 2048 && |file| <= 4096 && (endpoint == "" ==> Known(kind, IssueFor(kind)))
    requires var t := TargetOf(api, code);
      && IsCut(AllPieces(t), a, j) && (a, j) != OwnCut(t)
      && WrittenAs(lower, Target(service, endpoint, TypeText(kind), file, t.line), CutAt(AllPieces(t), t.line, a, j))
    ensures var pair := Carrier(api, code, service, endpoint, kind, file); Collides(lower, window, api, code, pair.0, pair.1)
  {
    var pair, t := Carrier(api, code, service, endpoint, kind, file), TargetOf(api, code);
    var t' := TargetOf(pair.0, pair.1);
    CarrierBecomesAlert(window, api, code, service, endpoint, kind, file);
    TargetPlain(api, code);
    TargetPlain(pair.0, pair.1);
    assert t' == Target(service, endpoint, TypeText(kind), file, t.line);
    SameKeyByCut(lower, t, t', a, j);
    if SameTexts(lower, t, t') { OtherCutOtherTexts(lower, t, a, j); }
    SameTextsIff(lower, api, code, pair.0, pair.1);
  }

  lemma CutCollides(lower: string -> string, window: real, api: Finding, code: Finding, a: nat, j: nat)
    returns (api': Finding, code': Finding)
    requires LowersLikePython(lower) && BecomesAlert(window, api, code) && OtherCut(lower, TargetOf(api, code), a, j)
    ensures Collides(lower, window, api, code, api', code')
  {
    var u := CutAt(AllPieces(TargetOf(api, code)), TargetOf(api, code).line, a, j);
    var service :| lower(service) == lower(u.service) && IsText(service, 200);
    var endpoint :| lower(endpoint) == lower(u.endpoint) && |endpoint| <= 2048;
    var file :| lower(file) == lower(u.file) && |file| <= 4096;
    var kind := TypeOf(lower(u.kind));
    if endpoint == "" {
      PlainKept(lower, "");
      assert u.endpoint == "";
    }
    CarrierCollides(lower, window, api, code, a, j, service, endpoint, kind, file);
    var pair := Carrier(api, code, service, endpoint, kind, file);
    api', code' := pair.0, pair.1;
  }

  /**
    Among pairs that can become alerts: another target has this alert's key
    exactly when the key can be cut elsewhere into texts an alert may carry.
  */
  lemma CollisionIff(lower: string -> string, window: real, api: Finding, code: Finding)
    requires LowersLikePython(lower) && BecomesAlert(window, api, code)
    ensures (exists api', code' :: Collides(lower, window, api, code, api', code'))
            <==> (exists a, j :: OtherCut(lower, TargetOf(api, code), a, j))
  {
    if a, j :| OtherCut(lower, TargetOf(api, code), a, j) {
      var api', code' := CutCollides(lower, window, api, code, a, j);
    }
    if api', code' :| Collides(lower, window, api, code, api', code') {
      CollisionIsCut(lower, window, api, code, api', code');
    }
  }

  lemma ExampleSplit()
    ensures Split("s|x") == ["s", "x"] && Split("e") == ["e"] && Join(["x", "e"]) == "x|e"
  {
    assert "s" + [SEPARATOR] + "x" == "s|x" && "x" + [SEPARATOR] + "e" == "x|e";
    SplitPrefix("s", "x");
    SplitPrefix("x", "");
    SplitPrefix("e", "");
    JoinConcat(["x"], ["e"]);
    assert ["x"] + ["e"] == ["x", "e"];
  }

  lemma Shifted(xs: seq<string>, ys: seq<string>, es: seq<string>, rest: seq<string>)
    ensures (xs + ys) + (es + rest) == xs + ((ys + es) + rest)
  {
    assert (xs + ys) + (es + rest) == xs + (ys + (es + rest));
  }

  lemma ExamplePieces(t: Target)
    requires t.service == "s|x" && t.endpoint == "e"
    ensures var ps := AllPieces(t);
      && OwnCut(t) == (2, 3) && IsCut(ps, 1, 3)
      && CutAt(ps, t.line, 1, 3) == t.(service := "s", endpoint := "x|e")
  {
    ExampleSplit();
    JoinOfSplit(t.file);
    var s, x, e, rest := ["s"], ["x"], ["e"], [t.kind] + Split(t.file);
    assert s + x == ["s", "x"] && x + e == ["x", "e"] && Join(s) == "s";
    Shifted(s, x, e, rest);
    OwnJoins(s, x + e, t.kind, Split(t.file), AllPieces(t), 1, 3);
  }

  /** One such alert: service "s|x" at "e", and service "s" at "x|e". */
  lemma SeparatorCollides(lower: string -> string, window: real, api: Finding, code: Finding)
    requires LowersLikePython(lower) && BecomesAlert(window, api, code) && api.service == "s|x" && api.endpoint == Some("e")
    ensures var pair := Carrier(api, code, "s", "x|e", api.kind, TextOr(code.file));
      Collides(lower, window, api, code, pair.0, pair.1)
  {
    assert !IsSpace("s"[0]);
    TargetPlain(api, code);
    PlainKept(lower, TypeText(api.kind));
    ExamplePieces(TargetOf(api, code));
    CarrierCollides(lower, window, api, code, 1, 3, "s", "x|e", api.kind, TextOr(code.file));
  }

  // -------------------------------------------------- the condition in plain lengths

  /** The one character that str.lower lengthens. */
  const DOTTED_I: char := '\U{0130}'

  /** As str.lower does. */
  ghost predicate KeepsShape(lower: string -> string) {
    forall s {:trigger lower(s)} :: DOTTED_I !in s ==> |lower(s)| == |s| && (IsBlank(lower(s)) <==> IsBlank(s))
  }

  predicate NoDottedI(t: Target) {
    DOTTED_I !in t.service && DOTTED_I !in t.endpoint && DOTTED_I !in t.file
  }

  /** The character is in no piece. */
  predicate NoneHas(ps: seq<string>, c: char) {
    forall i :: 0 <= i < |ps| ==> c !in ps[i]
  }

  lemma {:induction false} JoinHas(ps: seq<string>, c: char)
    requires c != SEPARATOR
    ensures c !in Join(ps) <==> NoneHas(ps, c)
  {
    if |ps| > 1 {
      JoinHas(ps[1..], c);
      assert forall i :: 1 <= i < |ps| ==> ps[i] == ps[1..][i - 1];
    }
  }

  lemma PiecesHave(t: Target)
    requires NoDottedI(t) && t.Plain()
    ensures NoneHas(AllPieces(t), DOTTED_I)
  {
    JoinSplit(t.service);
    JoinSplit(t.endpoint);
    JoinSplit(t.file);
    JoinHas(Split(t.service), DOTTED_I);
    JoinHas(Split(t.endpoint), DOTTED_I);
    JoinHas(Split(t.file), DOTTED_I);
  }

  lemma CutHas(ps: seq<string>, line: string, a: nat, j: nat)
    requires IsCut(ps, a, j) && NoneHas(ps, DOTTED_I)
    ensures NoDottedI(CutAt(ps, line, a, j))
  {
    JoinHas(ps[..a], DOTTED_I);
    JoinHas(ps[a..j], DOTTED_I);
    JoinHas(ps[j + 1..], DOTTED_I);
  }

  /** Texts without that character that are the same up to case have the same length and blankness. */
  lemma SameShape(lower: string -> string, s: string, w: string)
    requires KeepsShape(lower) && DOTTED_I !in s && DOTTED_I !in w && lower(s) == lower(w)
    ensures |s| == |w| && (IsBlank(s) <==> IsBlank(w))
  {
  }

  lemma FittingFromOther(lower: string -> string, t: Target, t': Target)
    requires LowersLikePython(lower) && KeepsShape(lower) && t.Plain() && t'.Plain() && t.Key(lower) == t'.Key(lower)
    requires Fitting(t') && !SameTexts(lower, t, t') && NoDottedI(t) && NoDottedI(t')
    ensures OtherFittingCut(lower, t, OwnCut(t').0, OwnCut(t').1)
  {
    OtherIsCut(lower, t, t');
    CutOfOther(lower, t, t');
    var u := CutAt(AllPieces(t), t.line, OwnCut(t').0, OwnCut(t').1);
    PiecesHave(t);
    CutHas(AllPieces(t), t.line, OwnCut(t').0, OwnCut(t').1);
    SameShape(lower, t'.service, u.service);
    SameShape(lower, t'.endpoint, u.endpoint);
    SameShape(lower, t'.file, u.file);
  }

  /** A collision with an alert that does without that character as well. */
  ghost predicate PlainlyCollides(lower: string -> string, window: real, api: Finding, code: Finding, api': Finding, code': Finding)
    requires Numbered(code)
  {
    Collides(lower, window, api, code, api', code') && NoDottedI(TargetOf(api', code'))
  }

  lemma FittingCutCollides(lower: string -> string, window: real, api: Finding, code: Finding, a: nat, j: nat)
    returns (api': Finding, code': Finding)
    requires LowersLikePython(lower) && BecomesAlert(window, api, code) && NoDottedI(TargetOf(api, code))
    requires OtherFittingCut(lower, TargetOf(api, code), a, j)
    ensures PlainlyCollides(lower, window, api, code, api', code')
  {
    var t := TargetOf(api, code);
    var u := CutAt(AllPieces(t), t.line, a, j);
    var kind := TypeOf(lower(u.kind));
    TargetPlain(api, code);
    PiecesHave(t);
    CutHas(AllPieces(t), t.line, a, j);
    CarrierCollides(lower, window, api, code, a, j, u.service, u.endpoint, kind, u.file);
    var pair := Carrier(api, code, u.service, u.endpoint, kind, u.file);
    api', code' := pair.0, pair.1;
  }

  lemma PlainCollisionIsCut(lower: string -> string, window: real, api: Finding, code: Finding, api': Finding, code': Finding)
    requires LowersLikePython(lower) && KeepsShape(lower) && BecomesAlert(window, api, code) && NoDottedI(TargetOf(api, code))
    requires PlainlyCollides(lower, window, api, code, api', code')
    ensures var cut := OwnCut(TargetOf(api', code')); OtherFittingCut(lower, TargetOf(api, code), cut.0, cut.1)
  {
    TargetPlain(api, code);
    TargetPlain(api', code');
    SameTextsIff(lower, api, code, api', code');
    AlertFits(window, api', code');
    FittingFromOther(lower, TargetOf(api, code), TargetOf(api', code'));
  }

  /**
    Among alerts whose texts do without that character the condition can be read
    off the alert's own texts, in plain lengths.
  */
  lemma CollisionIffFittingCut(lower: string -> string, window: real, api: Finding, code: Finding)
    requires LowersLikePython(lower) && KeepsShape(lower) && BecomesAlert(window, api, code) && NoDottedI(TargetOf(api, code))
    ensures (exists api', code' :: PlainlyCollides(lower, window, api, code, api', code'))
            <==> (exists a, j :: OtherFittingCut(lower, TargetOf(api, code), a, j))
  {
    if a, j :| OtherFittingCut(lower, TargetOf(api, code), a, j) {
      var api', code' := FittingCutCollides(lower, window, api, code, a, j);
    }
    if api', code' :| PlainlyCollides(lower, window, api, code, api', code') {
      PlainCollisionIsCut(lower, window, api, code, api', code');
    }
  }
}
