/**
  The text an alert's cooldown key is hashed from (watchers/schema.py,
  `_compute_fingerprint`), taken apart again.  Lower-casing is any function that
  works on the two sides of a separator independently, makes no
  separator, and leaves plain ASCII names and numbers alone, as str.lower does.
*/
module Fingerprint {
  import opened Schema

  const SEPARATOR: char := '|'

  function Join(parts: seq<string>): string {
    if |parts| == 0 then ""
    else if |parts| == 1 then parts[0]
    else parts[0] + [SEPARATOR] + Join(parts[1..])
  }

  /** Cut at every separator; always at least one piece. */
  function Split(s: string): (parts: seq<string>)
    ensures |parts| >= 1
  {
    if s == "" then [""]
    else
      var rest := Split(s[1..]);
      if s[0] == SEPARATOR then [""] + rest else [[s[0]] + rest[0]] + rest[1..]
  }

  lemma {:induction false} SplitPrefix(head: string, s: string)
    requires SEPARATOR !in head
    ensures Split(head + [SEPARATOR] + s) == [head] + Split(s)
    ensures Split(head) == [head]
  {
    if head == "" {
      assert (head + [SEPARATOR] + s)[1..] == s;
    } else {
      SplitPrefix(head[1..], s);
      assert (head + [SEPARATOR] + s)[1..] == head[1..] + [SEPARATOR] + s;
      assert [head[0]] + head[1..] == head;
    }
  }

  function Separators(s: string): nat {
    if s == "" then 0 else (if s[0] == SEPARATOR then 1 else 0) + Separators(s[1..])
  }

  lemma {:induction false} SplitCounts(s: string)
    ensures |Split(s)| == Separators(s) + 1
  {
    if s != "" { SplitCounts(s[1..]); }
  }

  lemma {:induction false} SeparatorsConcat(s: string, t: string)
    ensures Separators(s + t) == Separators(s) + Separators(t)
    ensures SEPARATOR in s ==> Separators(s) >= 1
  {
    if s == "" {
      assert s + t == t;
    } else {
      SeparatorsConcat(s[1..], t);
      assert (s + t)[1..] == s[1..] + t;
    }
  }

  lemma {:induction false} JoinCounts(parts: seq<string>)
    requires |parts| >= 1
    ensures Separators(Join(parts)) >= |parts| - 1
    ensures (exists i :: 0 <= i < |parts| && SEPARATOR in parts[i]) ==> Separators(Join(parts)) >= |parts|
  {
    SeparatorsConcat(parts[0], "");
    if |parts| > 1 {
      JoinCounts(parts[1..]);
      SeparatorsConcat(parts[0], [SEPARATOR] + Join(parts[1..]));
      assert parts[0] + [SEPARATOR] + Join(parts[1..]) == parts[0] + ([SEPARATOR] + Join(parts[1..]));
      assert ([SEPARATOR] + Join(parts[1..]))[1..] == Join(parts[1..]);
      assert forall i :: 1 <= i < |parts| ==> parts[i] == parts[1..][i - 1];
    }
  }

  lemma {:induction false} SplitJoin(parts: seq<string>)
    requires |parts| >= 1 && forall i :: 0 <= i < |parts| ==> SEPARATOR !in parts[i]
    ensures Split(Join(parts)) == parts
  {
    if |parts| == 1 {
      SplitPrefix(parts[0], "");
    } else {
      SplitPrefix(parts[0], Join(parts[1..]));
      SplitJoin(parts[1..]);
      assert parts == [parts[0]] + parts[1..];
    }
  }

  /** The joined text can be taken apart again exactly when no part contains the separator. */
  lemma SplitJoinIff(parts: seq<string>)
    requires |parts| >= 1
    ensures Split(Join(parts)) == parts <==> forall i :: 0 <= i < |parts| ==> SEPARATOR !in parts[i]
  {
    if forall i :: 0 <= i < |parts| ==> SEPARATOR !in parts[i] {
      SplitJoin(parts);
    } else {
      JoinCounts(parts);
      SplitCounts(Join(parts));
    }
  }

  // ------------------------------------------------------------ the alert key

  predicate IsPlain(s: string) {
    forall c :: c in s ==> c == '_' || '0' <= c <= '9' || 'a' <= c <= 'z'
  }

  /** What is used of str.lower. */
  ghost predicate LowersLikePython(lower: string -> string) {
    && (forall s {:trigger SEPARATOR in lower(s)} :: SEPARATOR in lower(s) ==> SEPARATOR in s)
    && (forall s {:trigger lower(s)} :: lower(s) == "" ==> s == "")
    && (forall s, t {:trigger lower(s + [SEPARATOR] + t)} :: lower(s + [SEPARATOR] + t) == lower(s) + [SEPARATOR] + lower(t))
    && (forall s {:trigger IsPlain(s)} :: IsPlain(s) ==> lower(s) == s)
  }

  function DigitChar(d: nat): char
    requires d < 10
  {
    '0' + d as char
  }

  function Decimal(n: nat): (s: string)
    ensures IsPlain(s) && s != ""
  {
    if n < 10 then [DigitChar(n)] else Decimal(n / 10) + [DigitChar(n % 10)]
  }

  function ValueOf(s: string): nat
    requires forall i :: 0 <= i < |s| ==> '0' <= s[i]
  {
    if s == "" then 0 else 10 * ValueOf(s[..|s| - 1]) + (s[|s| - 1] as int - '0' as int)
  }

  lemma {:induction false} DecimalRoundTrip(n: nat)
    ensures forall i :: 0 <= i < |Decimal(n)| ==> '0' <= Decimal(n)[i]
    ensures ValueOf(Decimal(n)) == n
  {
    if n >= 10 {
      DecimalRoundTrip(n / 10);
      assert Decimal(n)[..|Decimal(n)| - 1] == Decimal(n / 10);
    }
  }

  function TypeText(t: FindingType): string {
    match t
    case Http5xx => "http_5xx"
    case Http4xx => "http_4xx"
    case HighLatency => "high_latency"
    case EndpointDown => "endpoint_down"
    case SslError => "ssl_error"
    case AuthFailure => "auth_failure"
    case RateLimitHit => "rate_limit_hit"
    case AnomalousResponse => "anomalous_response"
    case HardcodedSecret => "hardcoded_secret"
    case SqlInjectionRisk => "sql_injection_risk"
    case NullDereference => "null_dereference"
    case ReentrancyRisk => "reentrancy_risk"
    case EvalUsage => "eval_usage"
    case WeakCrypto => "weak_crypto"
    case SsrfRisk => "ssrf_risk"
    case MissingAuthCheck => "missing_auth_check"
    case MassAssignment => "mass_assignment"
    case OpenRedirect => "open_redirect"
    case FileModified => "file_modified"
    case SuspiciousPattern => "suspicious_pattern"
    case CorrelatedFailure => "correlated_failure"
    case Unknown => "unknown"
  }

  /** FindingType(text), on the texts above: length and one letter tell them apart. */
  function TypeOf(s: string): FindingType {
    if |s| == 7 then Unknown
    else if |s| == 8 then (if s[5] == '5' then Http5xx else Http4xx)
    else if |s| == 9 then (if s[1] == 's' && s[2] == 'l' then SslError else SsrfRisk)
    else if |s| == 10 then EvalUsage
    else if |s| == 11 then WeakCrypto
    else if |s| == 12 then (if s[0] == 'h' then HighLatency else AuthFailure)
    else if |s| == 13 then (if s[0] == 'e' then EndpointDown else if s[0] == 'o' then OpenRedirect else FileModified)
    else if |s| == 14 then RateLimitHit
    else if |s| == 15 then (if s[0] == 'm' then MassAssignment else ReentrancyRisk)
    else if |s| == 16 then (if s[0] == 'n' then NullDereference else HardcodedSecret)
    else if |s| == 18 then (if s[0] == 'a' then AnomalousResponse else if s[1] == 'q' then SqlInjectionRisk
                            else if s[0] == 'm' then MissingAuthCheck else if s[0] == 'c' then CorrelatedFailure
                            else SuspiciousPattern)
    else Unknown
  }

  lemma TypeRoundTrip(t: FindingType)
    ensures TypeOf(TypeText(t)) == t
  {
  }

  lemma ShortTypeTextPlain(t: FindingType)
    requires |TypeText(t)| <= 12
    ensures IsPlain(TypeText(t))
  {
  }

  lemma LongTypeTextPlain(t: FindingType)
    requires |TypeText(t)| > 12
    ensures IsPlain(TypeText(t))
  {
  }

  lemma TypeTextPlain(t: FindingType)
    ensures IsPlain(TypeText(t))
  {
    if |TypeText(t)| <= 12 { ShortTypeTextPlain(t); } else { LongTypeTextPlain(t); }
  }

  function TextOr(s: Option<string>): string {
    if s.Some? then s.value else ""
  }

  function LineText(line: Option<int>): string
    requires line.Some? ==> line.value >= 1
  {
    if line.Some? then Decimal(line.value) else ""
  }

  /** A line number, if there is one, counts from 1. */
  predicate Numbered(code: Finding) {
    code.line.Some? ==> code.line.value >= 1
  }

  /** The five texts an alert is hashed from. */
  datatype Target = Target(service: string, endpoint: string, kind: string, file: string, line: string) {
    predicate Plain() {
      IsPlain(kind) && IsPlain(line)
    }

    function Key(lower: string -> string): string {
      Join([lower(service), lower(endpoint), lower(kind), lower(file), lower(line)])
    }
  }

  function TargetOf(api: Finding, code: Finding): Target
    requires Numbered(code)
  {
    Target(api.service, TextOr(api.endpoint), TypeText(api.kind), TextOr(code.file), LineText(code.line))
  }

  /** The preimage of the alert fingerprint: equal preimages share one cooldown key. */
  function AlertKey(lower: string -> string, api: Finding, code: Finding): string
    requires Numbered(code)
  {
    TargetOf(api, code).Key(lower)
  }

  // ------------------------------------------------------------ the key in pieces

  function Lowered(lower: string -> string, ps: seq<string>): (r: seq<string>)
    ensures |r| == |ps|
  {
    seq(|ps|, i requires 0 <= i < |ps| => lower(ps[i]))
  }

  predicate Clean(ps: seq<string>) {
    |ps| >= 1 && forall i :: 0 <= i < |ps| ==> SEPARATOR !in ps[i]
  }

  lemma {:induction false} JoinConcat(xs: seq<string>, ys: seq<string>)
    requires |xs| >= 1 && |ys| >= 1
    ensures Join(xs + ys) == Join(xs) + [SEPARATOR] + Join(ys)
  {
    if |xs| == 1 {
      assert (xs + ys)[1..] == ys;
    } else {
      JoinConcat(xs[1..], ys);
      assert (xs + ys)[1..] == xs[1..] + ys;
    }
  }

  /** One more character in front of the first piece. */
  lemma JoinGrown(c: char, x: string, tail: seq<string>)
    ensures Join([[c] + x] + tail) == [c] + Join([x] + tail)
  {
    if tail == [] {
      assert [[c] + x] + tail == [[c] + x] && [x] + tail == [x];
    } else {
      JoinConcat([[c] + x], tail);
      JoinConcat([x], tail);
      assert ([c] + x) + [SEPARATOR] + Join(tail) == [c] + (x + [SEPARATOR] + Join(tail));
    }
  }

  lemma {:induction false} JoinSplit(s: string)
    ensures Join(Split(s)) == s && Clean(Split(s))
    ensures SEPARATOR !in s ==> Split(s) == [s]
    ensures SEPARATOR in s ==> |Split(s)| >= 2
  {
    if s != "" {
      var rest := Split(s[1..]);
      JoinSplit(s[1..]);
      assert s == [s[0]] + s[1..];
      if s[0] == SEPARATOR {
        assert ([""] + rest)[1..] == rest;
      } else {
        JoinGrown(s[0], rest[0], rest[1..]);
        assert rest == [rest[0]] + rest[1..];
      }
    }
  }

  lemma {:induction false} LowerJoin(lower: string -> string, ps: seq<string>)
    requires LowersLikePython(lower) && |ps| >= 1
    ensures lower(Join(ps)) == Join(Lowered(lower, ps))
  {
    if |ps| > 1 {
      LowerJoin(lower, ps[1..]);
      assert Lowered(lower, ps)[1..] == Lowered(lower, ps[1..]);
    }
  }

  /** A joined part may as well be its pieces. */
  lemma JoinFlat(ps: seq<string>, rest: seq<string>, pieces: seq<string>)
    requires |ps| >= 1 && |rest| >= 1 && |pieces| >= 1 && Join(rest) == Join(pieces)
    ensures Join([Join(ps)] + rest) == Join(ps + pieces)
  {
    JoinConcat([Join(ps)], rest);
    JoinConcat(ps, pieces);
  }

  /** The pieces of a key, grouped by the field they come from. */
  function Pieces(services: seq<string>, endpoints: seq<string>, kind: string, files: seq<string>, line: string): seq<string> {
    services + (endpoints + ([kind] + (files + [line])))
  }

  lemma JoinPieces(services: seq<string>, endpoints: seq<string>, kind: string, files: seq<string>, line: string)
    requires |services| >= 1 && |endpoints| >= 1 && |files| >= 1
    ensures Join([Join(services), Join(endpoints), kind, Join(files), line]) == Join(Pieces(services, endpoints, kind, files, line))
  {
    var fs, k := [Join(files), line], [kind, Join(files), line];
    var e := [Join(endpoints), kind, Join(files), line];
    assert fs == [Join(files)] + [line] && k == [Join([kind])] + fs && e == [Join(endpoints)] + k;
    assert [Join(services), Join(endpoints), kind, Join(files), line] == [Join(services)] + e;
    JoinFlat(files, [line], [line]);
    JoinFlat([kind], fs, files + [line]);
    JoinFlat(endpoints, k, [kind] + (files + [line]));
    JoinFlat(services, e, endpoints + ([kind] + (files + [line])));
  }

  lemma PlainKept(lower: string -> string, s: string)
    requires LowersLikePython(lower) && IsPlain(s)
    ensures lower(s) == s && SEPARATOR !in s
  {
  }

  lemma LoweredClean(lower: string -> string, ps: seq<string>)
    requires LowersLikePython(lower) && Clean(ps)
    ensures Clean(Lowered(lower, ps))
  {
  }

  /** The key of a target whose three free texts consist, up to case, of these pieces. */
  lemma KeyOfPieces(lower: string -> string, t: Target, ss: seq<string>, es: seq<string>, fs: seq<string>)
    requires LowersLikePython(lower) && t.Plain() && Clean(ss) && Clean(es) && Clean(fs)
    requires lower(t.service) == lower(Join(ss)) && lower(t.endpoint) == lower(Join(es)) && lower(t.file) == lower(Join(fs))
    ensures var ps := Pieces(Lowered(lower, ss), Lowered(lower, es), t.kind, Lowered(lower, fs), t.line);
      t.Key(lower) == Join(ps) && Split(Join(ps)) == ps
  {
    PlainKept(lower, t.kind);
    PlainKept(lower, t.line);
    LowerJoin(lower, ss);
    LowerJoin(lower, es);
    LowerJoin(lower, fs);
    JoinPieces(Lowered(lower, ss), Lowered(lower, es), t.kind, Lowered(lower, fs), t.line);
    LoweredClean(lower, ss);
    LoweredClean(lower, es);
    LoweredClean(lower, fs);
    SplitJoin(Pieces(Lowered(lower, ss), Lowered(lower, es), t.kind, Lowered(lower, fs), t.line));
  }

  function KeyPieces(lower: string -> string, t: Target): seq<string> {
    Pieces(Lowered(lower, Split(t.service)), Lowered(lower, Split(t.endpoint)), t.kind, Lowered(lower, Split(t.file)), t.line)
  }

  lemma KeySplits(lower: string -> string, t: Target)
    requires LowersLikePython(lower) && t.Plain()
    ensures t.Key(lower) == Join(KeyPieces(lower, t))
    ensures Split(t.Key(lower)) == KeyPieces(lower, t)
  {
    JoinSplit(t.service);
    JoinSplit(t.endpoint);
    JoinSplit(t.file);
    KeyOfPieces(lower, t, Split(t.service), Split(t.endpoint), Split(t.file));
  }

  /** Where the type stands among the pieces of a key. */
  lemma TypeAt(ss: seq<string>, es: seq<string>, t: string, fs: seq<string>, n: string, ps: seq<string>)
    requires ps == Pieces(ss, es, t, fs, n)
    ensures var j := |ss| + |es|;
      && |ps| == j + |fs| + 2 && ps[j] == t && ps[|ps| - 1] == n
      && ps[..|ss|] == ss && ps[|ss|..j] == es && ps[j + 1..|ps| - 1] == fs
  {
  }

  /** The pieces say where the other alert's fields begin and end. */
  lemma SamePieces(ss: seq<string>, es: seq<string>, t: string, fs: seq<string>, n: string,
                   ss': seq<string>, es': seq<string>, t': string, fs': seq<string>, n': string)
    requires Pieces(ss, es, t, fs, n) == Pieces(ss', es', t', fs', n')
    requires |ss| == |es| == 1 && |ss'| >= 1 && |es'| >= 1 && |fs'| >= 1
    requires forall i :: 0 <= i < |fs| - 1 ==> fs[i] != t'
    ensures ss == ss' && es == es' && t == t' && fs == fs' && n == n'
  {
    var ps := Pieces(ss, es, t, fs, n);
    TypeAt(ss, es, t, fs, n, ps);
    TypeAt(ss', es', t', fs', n', ps);
    var j := |ss'| + |es'|;
    assert forall i :: 0 <= i < |fs| ==> fs[i] == ps[3 + i];
    assert j == 2;
  }

  lemma LowerOfSplit(lower: string -> string, s: string)
    requires LowersLikePython(lower)
    ensures lower(s) == Join(Lowered(lower, Split(s))) && |Split(s)| >= 1
  {
    JoinSplit(s);
    LowerJoin(lower, Split(s));
  }
}
