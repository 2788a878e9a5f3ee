/**
  Scanning one file (watchers/code_watcher.py, lines 170-212 and 278-358): a
  first-match pattern scan line by line, the syntax-tree scan, and the removal of
  repeated (type, line) keys.  Whether pattern k matches a line is left open.
*/
module FileScan {
  import opened Schema
  import opened Correlation
  import opened Subsequences
  import opened SyntaxWalk

  datatype Rules = Rules(kinds: seq<FindingType>, matches: (nat, string) -> bool, secretsEnabled: bool)

  datatype Hit =
    | Regex(kind: FindingType, line: nat, pattern: nat)
    | Ast(kind: FindingType, line: nat)

  type Key = (FindingType, nat)

  function KeyOf(h: Hit): Key {
    (h.kind, h.line)
  }

  // ------------------------------------------------------------- pattern scan

  function LeftStrip(s: string): (r: string)
    ensures |r| <= |s| && (r == "" <==> IsBlank(s)) && (r != "" ==> !IsSpace(r[0]))
  {
    if s == "" then ""
    else if IsSpace(s[0]) then
      assert forall i :: 1 <= i < |s| ==> s[i] == s[1..][i - 1];
      LeftStrip(s[1..])
    else s
  }

  /** A line whose first visible text is a comment marker. */
  predicate IsComment(line: string) {
    var s := LeftStrip(line);
    "#" <= s || "//" <= s || "*" <= s || "<!--" <= s
  }

  /** Pattern k applies to the line: it is switched on and it matches. */
  predicate Applies(r: Rules, line: string, k: nat)
    requires k < |r.kinds|
  {
    !(r.kinds[k].HardcodedSecret? && !r.secretsEnabled) && r.matches(k, line)
  }

  /** k is the first pattern that applies. */
  predicate Fires(r: Rules, line: string, k: nat) {
    k < |r.kinds| && Applies(r, line, k) && forall j: nat :: j < k ==> !Applies(r, line, j)
  }

  lemma {:induction false} LeftStripExact(ws: string, rest: string)
    requires IsBlank(ws) && (rest == "" || !IsSpace(rest[0]))
    ensures LeftStrip(ws + rest) == rest
  {
    if ws == "" {
      assert ws + rest == rest;
    } else {
      assert IsBlank(ws[1..]);
      assert (ws + rest)[1..] == ws[1..] + rest;
      LeftStripExact(ws[1..], rest);
    }
  }

  lemma {:induction false} LeftStripCut(s: string) returns (ws: string)
    ensures IsBlank(ws) && s == ws + LeftStrip(s)
  {
    if s != "" && IsSpace(s[0]) {
      var rest := LeftStripCut(s[1..]);
      ws := [s[0]] + rest;
      assert s == [s[0]] + s[1..];
    } else {
      ws := "";
    }
  }

  predicate IsMarker(m: string) {
    m == "#" || m == "//" || m == "*" || m == "<!--"
  }

  predicate StartsComment(line: string, ws: string, marker: string, rest: string) {
    IsBlank(ws) && IsMarker(marker) && line == ws + marker + rest
  }

  lemma StartedIsComment(line: string, ws: string, marker: string, rest: string)
    requires StartsComment(line, ws, marker, rest)
    ensures IsComment(line)
  {
    assert !IsSpace(marker[0]);
    assert line == ws + (marker + rest);
    LeftStripExact(ws, marker + rest);
    assert marker <= LeftStrip(line);
  }

  lemma CommentStarts(line: string) returns (ws: string, marker: string, rest: string)
    requires IsComment(line)
    ensures StartsComment(line, ws, marker, rest)
  {
    var s := LeftStrip(line);
    ws := LeftStripCut(line);
    marker := if "#" <= s then "#" else if "//" <= s then "//" else if "*" <= s then "*" else "<!--";
    rest := s[|marker|..];
    assert s == marker + rest;
    assert line == ws + marker + rest;
  }

  /** A comment is a line with one of four markers after nothing but white space. */
  lemma CommentIff(line: string)
    ensures IsComment(line) <==> exists ws, marker, rest :: StartsComment(line, ws, marker, rest)
  {
    if ws, marker, rest :| StartsComment(line, ws, marker, rest) { StartedIsComment(line, ws, marker, rest); }
    if IsComment(line) { var ws, marker, rest := CommentStarts(line); }
  }

  /** The first pattern that matches counts, secrets being passed over where they are switched off. */
  lemma FiresIff(r: Rules, line: string, k: nat)
    ensures Fires(r, line, k) <==>
      && k < |r.kinds| && r.matches(k, line) && (r.kinds[k] == HardcodedSecret ==> r.secretsEnabled)
      && forall j: nat :: j < k ==> (r.matches(j, line) ==> r.kinds[j] == HardcodedSecret && !r.secretsEnabled)
  {
    if k < |r.kinds| {
      forall j: nat | j < k
        ensures !Applies(r, line, j) <==> (r.matches(j, line) ==> r.kinds[j] == HardcodedSecret && !r.secretsEnabled)
      {
      }
    }
  }

  predicate Increasing(hits: seq<Hit>) {
    forall i, j :: 0 <= i < j < |hits| ==> hits[i].line < hits[j].line
  }

  predicate Justified(r: Rules, lines: seq<string>, h: Hit) {
    && h.Regex? && 1 <= h.line <= |lines|
    && !IsComment(lines[h.line - 1]) && Fires(r, lines[h.line - 1], h.pattern) && h.kind == r.kinds[h.pattern]
  }

  predicate Reported(hits: seq<Hit>, line: nat) {
    exists i :: 0 <= i < |hits| && hits[i].line == line
  }

  /** One hit per line with an applicable pattern, for the first such pattern, in line order. */
  ghost predicate RegexResult(r: Rules, lines: seq<string>, hits: seq<Hit>) {
    && Increasing(hits)
    && (forall i :: 0 <= i < |hits| ==> Justified(r, lines, hits[i]))
    && (forall n: nat, k: nat :: n < |lines| && !IsComment(lines[n]) && Fires(r, lines[n], k) ==> Reported(hits, n + 1))
  }

  /** The loop over the patterns, left at the first match. */
  method FirstMatch(r: Rules, line: string) returns (found: Option<nat>)
    ensures found.Some? ==> Fires(r, line, found.value)
    ensures found.None? ==> forall k: nat :: !Fires(r, line, k)
  {
    var k := 0;
    while k < |r.kinds|
      invariant 0 <= k <= |r.kinds|
      invariant forall j: nat :: j < k ==> !Applies(r, line, j)
    {
      if Applies(r, line, k) { return Some(k); }
      k := k + 1;
    }
    found := None;
  }

  /** What the scan has found in the first n lines. */
  ghost predicate ScannedTo(r: Rules, lines: seq<string>, hits: seq<Hit>, n: nat) {
    && Increasing(hits)
    && (forall i :: 0 <= i < |hits| ==> Justified(r, lines, hits[i]) && hits[i].line <= n)
    && (forall m: nat, k: nat :: m < n <= |lines| && !IsComment(lines[m]) && Fires(r, lines[m], k) ==> Reported(hits, m + 1))
  }

  lemma HitAdded(r: Rules, lines: seq<string>, hits: seq<Hit>, n: nat, k: nat)
    requires n < |lines| && ScannedTo(r, lines, hits, n) && !IsComment(lines[n]) && Fires(r, lines[n], k)
    ensures ScannedTo(r, lines, hits + [Regex(r.kinds[k], n + 1, k)], n + 1)
  {
    var more := hits + [Regex(r.kinds[k], n + 1, k)];
    assert more[|hits|].line == n + 1;
    forall m: nat | Reported(hits, m) ensures Reported(more, m) {
      var i :| 0 <= i < |hits| && hits[i].line == m;
      assert more[i].line == m;
    }
  }

  lemma LinePassed(r: Rules, lines: seq<string>, hits: seq<Hit>, n: nat)
    requires n < |lines| && ScannedTo(r, lines, hits, n) && (IsComment(lines[n]) || forall k: nat :: !Fires(r, lines[n], k))
    ensures ScannedTo(r, lines, hits, n + 1)
  {
  }

  method ScanRegex(r: Rules, lines: seq<string>) returns (hits: seq<Hit>)
    ensures RegexResult(r, lines, hits)
  {
    hits := [];
    var n := 0;
    while n < |lines|
      invariant 0 <= n <= |lines|
      invariant ScannedTo(r, lines, hits, n)
    {
      var found := None;
      if !IsComment(lines[n]) { found := FirstMatch(r, lines[n]); }
      if found.Some? {
        HitAdded(r, lines, hits, n, found.value);
        hits := hits + [Regex(r.kinds[found.value], n + 1, found.value)];
      } else {
        LinePassed(r, lines, hits, n);
      }
      n := n + 1;
    }
  }

  // ------------------------------------------------------------ deduplication

  function Keys(fs: seq<Hit>): set<Key> {
    if fs == [] then {} else Keys(fs[..|fs| - 1]) + {KeyOf(fs[|fs| - 1])}
  }

  /** Each finding whose key did not come earlier. */
  function FirstOnes(fs: seq<Hit>): seq<Hit> {
    if fs == [] then []
    else
      var init, last := fs[..|fs| - 1], fs[|fs| - 1];
      if KeyOf(last) in Keys(init) then FirstOnes(init) else FirstOnes(init) + [last]
  }

  predicate DistinctKeys(fs: seq<Hit>) {
    forall i, j :: 0 <= i < j < |fs| ==> KeyOf(fs[i]) != KeyOf(fs[j])
  }

  method Deduplicate(fs: seq<Hit>) returns (kept: seq<Hit>)
    ensures kept == FirstOnes(fs)
  {
    kept := [];
    var seen: set<Key> := {};
    var i := 0;
    while i < |fs|
      invariant 0 <= i <= |fs|
      invariant kept == FirstOnes(fs[..i]) && seen == Keys(fs[..i])
    {
      assert fs[..i + 1][..i] == fs[..i];
      var key := KeyOf(fs[i]);
      if key !in seen {
        seen := seen + {key};
        kept := kept + [fs[i]];
      }
      i := i + 1;
    }
    assert fs[..i] == fs;
  }

  lemma {:induction false} KeyMember(fs: seq<Hit>, i: nat)
    requires i < |fs|
    ensures KeyOf(fs[i]) in Keys(fs)
  {
    if i < |fs| - 1 { KeyMember(fs[..|fs| - 1], i); }
  }

  lemma KeysSnoc(fs: seq<Hit>, h: Hit)
    ensures Keys(fs + [h]) == Keys(fs) + {KeyOf(h)}
  {
    assert (fs + [h])[..|fs|] == fs;
  }

  lemma AppendDistinct(fs: seq<Hit>, h: Hit)
    requires DistinctKeys(fs) && KeyOf(h) !in Keys(fs)
    ensures DistinctKeys(fs + [h])
  {
    forall i | 0 <= i < |fs| ensures KeyOf(fs[i]) in Keys(fs) {
      KeyMember(fs, i);
    }
  }

  /** Keys are distinct and none is lost. */
  lemma {:induction false} FirstOnesSound(fs: seq<Hit>)
    ensures DistinctKeys(FirstOnes(fs)) && Keys(FirstOnes(fs)) == Keys(fs)
  {
    if fs != [] {
      var init, last := fs[..|fs| - 1], fs[|fs| - 1];
      FirstOnesSound(init);
      KeysSnoc(FirstOnes(init), last);
      if KeyOf(last) !in Keys(init) { AppendDistinct(FirstOnes(init), last); }
    }
  }

  lemma {:induction false} DistinctNew(fs: seq<Hit>, h: Hit)
    requires DistinctKeys(fs + [h])
    ensures KeyOf(h) !in Keys(fs)
  {
    if fs != [] {
      var init, last := fs[..|fs| - 1], fs[|fs| - 1];
      assert (fs + [h])[|fs| - 1] == last && (fs + [h])[|fs|] == h;
      forall i, j | 0 <= i < j < |init + [h]| ensures KeyOf((init + [h])[i]) != KeyOf((init + [h])[j]) {
        assert (init + [h])[i] == (fs + [h])[i];
        assert (init + [h])[j] == (fs + [h])[if j == |init| then |fs| else j];
      }
      DistinctNew(init, h);
    }
  }

  lemma {:induction false} DistinctKept(fs: seq<Hit>)
    requires DistinctKeys(fs)
    ensures FirstOnes(fs) == fs
  {
    if fs != [] {
      var init, last := fs[..|fs| - 1], fs[|fs| - 1];
      assert fs == init + [last];
      DistinctNew(init, last);
      DistinctKept(init);
    }
  }

  lemma FirstOnesSnoc(fs: seq<Hit>, h: Hit)
    ensures FirstOnes(fs + [h]) == if KeyOf(h) in Keys(fs) then FirstOnes(fs) else FirstOnes(fs) + [h]
  {
    assert (fs + [h])[..|fs|] == fs;
  }

  /** Those of ys whose key comes neither in xs nor earlier in ys. */
  function NewOnes(xs: seq<Hit>, ys: seq<Hit>): seq<Hit> {
    if ys == [] then []
    else
      var init, last := ys[..|ys| - 1], ys[|ys| - 1];
      if KeyOf(last) in Keys(xs + init) then NewOnes(xs, init) else NewOnes(xs, init) + [last]
  }

  /** What comes first is kept before what follows. */
  lemma {:induction false} FirstOnesSplit(xs: seq<Hit>, ys: seq<Hit>)
    ensures FirstOnes(xs + ys) == FirstOnes(xs) + NewOnes(xs, ys)
  {
    if ys == [] {
      assert xs + ys == xs;
    } else {
      var init, last := ys[..|ys| - 1], ys[|ys| - 1];
      FirstOnesSplit(xs, init);
      assert ys == init + [last] && xs + ys == xs + init + [last];
      FirstOnesSnoc(xs + init, last);
      NewOnesSnoc(xs, init, last);
    }
  }

  lemma NewOnesSnoc(xs: seq<Hit>, ys: seq<Hit>, h: Hit)
    ensures NewOnes(xs, ys + [h]) == if KeyOf(h) in Keys(xs + ys) then NewOnes(xs, ys) else NewOnes(xs, ys) + [h]
  {
    assert (ys + [h])[..|ys|] == ys;
  }

  lemma NewOnesStep(xs: seq<Hit>, ys: seq<Hit>, h: Hit)
    requires Subseq(NewOnes(xs, ys), ys)
    ensures Subseq(NewOnes(xs, ys + [h]), ys + [h])
  {
    NewOnesSnoc(xs, ys, h);
    Snoc(NewOnes(xs, ys), ys, h);
  }

  lemma {:induction false} NewOnesInOrder(xs: seq<Hit>, ys: seq<Hit>)
    ensures Subseq(NewOnes(xs, ys), ys)
  {
    if ys != [] {
      NewOnesInOrder(xs, ys[..|ys| - 1]);
      NewOnesStep(xs, ys[..|ys| - 1], ys[|ys| - 1]);
      assert ys == ys[..|ys| - 1] + [ys[|ys| - 1]];
    }
  }

  // ---------------------------------------------------------------- whole file

  function AstHits(flags: seq<Flag>): (r: seq<Hit>)
    ensures |r| == |flags| && forall i :: 0 <= i < |flags| ==> r[i] == Ast(flags[i].kind, flags[i].line)
  {
    seq(|flags|, i requires 0 <= i < |flags| => Ast(flags[i].kind, flags[i].line))
  }

  /** None: not a Python file, or it does not parse. */
  function TreeFlags(tree: Option<Node>): seq<Flag> {
    match tree case None => [] case Some(n) => Walk(n)
  }

  /**
    The result of a scan: first every regex hit, then the tree hits in walk
    order whose key did not come earlier; keys are distinct and every key of
    either scan is there.
  */
  ghost predicate ScanResult(r: Rules, lines: seq<string>, flags: seq<Flag>, result: seq<Hit>, n: int) {
    && 0 <= n <= |result|
    && RegexResult(r, lines, result[..n])
    && result == FirstOnes(result[..n] + AstHits(flags))
    && Subseq(result[n..], AstHits(flags))
    && DistinctKeys(result)
    && Keys(result) == Keys(result[..n] + AstHits(flags))
  }

  /** `lines` is None when the file could not be read. */
  method ScanFile(r: Rules, lines: Option<seq<string>>, tree: Option<Node>) returns (result: seq<Hit>)
    ensures lines.None? ==> result == []
    ensures lines.Some? ==> exists n :: ScanResult(r, lines.value, TreeFlags(tree), result, n)
  {
    if lines.None? { return []; }
    var regex := ScanRegex(r, lines.value);
    var visitor := new Visitor();
    if tree.Some? { visitor.Visit(tree.value); }
    assert visitor.findings == TreeFlags(tree);
    var ast := AstHits(visitor.findings);
    result := Deduplicate(regex + ast);
    FirstOnesSplit(regex, ast);
    NewOnesInOrder(regex, ast);
    DistinctKept(regex);
    FirstOnesSound(regex + ast);
    assert result[..|regex|] == regex && result[|regex|..] == NewOnes(regex, ast);
    assert ScanResult(r, lines.value, TreeFlags(tree), result, |regex|);
  }

  /** Every type and line flagged by the tree walk is in the result. */
  lemma FlagsAreReported(r: Rules, lines: seq<string>, flags: seq<Flag>, result: seq<Hit>, n: nat, i: nat)
    requires ScanResult(r, lines, flags, result, n) && i < |flags|
    ensures exists k :: 0 <= k < |result| && KeyOf(result[k]) == (flags[i].kind, flags[i].line)
  {
    var all := result[..n] + AstHits(flags);
    KeyMember(all, n + i);
    assert all[n + i] == Ast(flags[i].kind, flags[i].line);
    MemberOfKeys(result, (flags[i].kind, flags[i].line));
  }

  lemma {:induction false} MemberOfKeys(fs: seq<Hit>, key: Key)
    requires key in Keys(fs)
    ensures exists k :: 0 <= k < |fs| && KeyOf(fs[k]) == key
  {
    if KeyOf(fs[|fs| - 1]) != key {
      MemberOfKeys(fs[..|fs| - 1], key);
      var k :| 0 <= k < |fs| - 1 && KeyOf(fs[..|fs| - 1][k]) == key;
      assert fs[k] == fs[..|fs| - 1][k];
    }
  }

  // ------------------------------------------------- service names and findings

  function RightStrip(s: string): (r: string)
    ensures |r| <= |s| && r == s[..|r|] && (r == "" <==> IsBlank(s))
  {
    if s == "" then ""
    else if IsSpace(s[|s| - 1]) then
      assert forall i :: 0 <= i < |s| - 1 ==> s[i] == s[..|s| - 1][i];
      RightStrip(s[..|s| - 1])
    else s
  }

  function Strip(s: string): string {
    RightStrip(LeftStrip(s))
  }

  function Take200(s: string): string {
    if |s| <= 200 then s else s[..200]
  }

  /** The marker stands first at i. */
  predicate FirstAt(parts: seq<string>, marker: string, i: nat) {
    i < |parts| && parts[i] == marker && marker !in parts[..i]
  }

  /** The component after position i, if there is one, without surrounding space. */
  function Following(parts: seq<string>, i: nat): string {
    if i + 1 < |parts| then Strip(parts[i + 1]) else ""
  }

  /** The component after the first `marker` names the service. */
  ghost predicate NamedAfter(parts: seq<string>, marker: string, name: string) {
    exists i: nat :: FirstAt(parts, marker, i) && Following(parts, i) == name && name != ""
  }

  lemma FirstLater(parts: seq<string>, marker: string, i: nat)
    requires parts != [] && parts[0] != marker
    ensures FirstAt(parts[1..], marker, i) <==> FirstAt(parts, marker, i + 1)
    ensures Following(parts[1..], i) == Following(parts, i + 1)
  {
    if i < |parts| - 1 { assert parts[..i + 1] == [parts[0]] + parts[1..][..i]; }
  }

  lemma NamedLater(parts: seq<string>, marker: string, name: string)
    requires parts != [] && parts[0] != marker
    ensures NamedAfter(parts[1..], marker, name) <==> NamedAfter(parts, marker, name)
  {
    if NamedAfter(parts[1..], marker, name) {
      var i: nat :| FirstAt(parts[1..], marker, i) && Following(parts[1..], i) == name && name != "";
      FirstLater(parts, marker, i);
    }
    if NamedAfter(parts, marker, name) {
      var i: nat :| FirstAt(parts, marker, i) && Following(parts, i) == name && name != "";
      assert i > 0;
      FirstLater(parts, marker, i - 1);
    }
  }

  /** What follows the first occurrence of the marker, if that is there and not blank; later ones are not looked at. */
  function AfterMarker(parts: seq<string>, marker: string): (r: Option<string>)
    ensures forall name :: NamedAfter(parts, marker, name) <==> r == Some(name)
  {
    if parts == [] then None
    else if parts[0] == marker then
      assert FirstAt(parts, marker, 0);
      if Following(parts, 0) != "" then Some(Following(parts, 0)) else None
    else
      assert forall name :: NamedAfter(parts[1..], marker, name) <==> NamedAfter(parts, marker, name) by {
        forall name ensures NamedAfter(parts[1..], marker, name) <==> NamedAfter(parts, marker, name) {
          NamedLater(parts, marker, name);
        }
      }
      AfterMarker(parts[1..], marker)
  }

  /**
    What follows the first `services`, or else what follows the first
    `components`, or else the parent directory, or else a fixed name; cut to a
    length every schema accepts, and never blank.
  */
  function InferService(parts: seq<string>, parent: string): (service: string)
    ensures IsText(service, 200)
    ensures forall name :: NamedAfter(parts, "services", name) ==> service == Take200(name)
    ensures (forall name :: !NamedAfter(parts, "services", name)) ==>
      forall name :: NamedAfter(parts, "components", name) ==> service == Take200(name)
    ensures (forall name :: !NamedAfter(parts, "services", name) && !NamedAfter(parts, "components", name)) ==>
      service == if Strip(parent) != "" then Take200(Strip(parent)) else "unknown-service"
  {
    var candidate := AfterMarker(parts, "services");
    var other := AfterMarker(parts, "components");
    assert candidate.Some? ==> NamedAfter(parts, "services", candidate.value);
    assert other.Some? ==> NamedAfter(parts, "components", other.value);
    var name :=
      if candidate.Some? then candidate.value
      else if other.Some? then other.value
      else if Strip(parent) != "" then Strip(parent)
      else "unknown-service";
    assert name != "" && !IsSpace(name[0]);
    assert Take200(name)[0] == name[0];
    Take200(name)
  }

  lemma {:induction false} RightStripExact(s: string, ws: string)
    requires IsBlank(ws) && (s == "" || !IsSpace(s[|s| - 1]))
    ensures RightStrip(s + ws) == s
  {
    if ws == "" {
      assert s + ws == s;
    } else {
      var init := ws[..|ws| - 1];
      assert IsBlank(init);
      assert (s + ws)[..|s + ws| - 1] == s + init && (s + ws)[|s + ws| - 1] == ws[|ws| - 1];
      RightStripExact(s, init);
    }
  }

  /** A name between white space is what stripping leaves. */
  lemma StripExact(before: string, name: string, after: string)
    requires IsBlank(before) && IsBlank(after) && name != "" && !IsSpace(name[0]) && !IsSpace(name[|name| - 1])
    ensures Strip(before + name + after) == name
  {
    assert before + name + after == before + (name + after);
    LeftStripExact(before, name + after);
    RightStripExact(name, after);
  }

  lemma FirstAtSplit(before: seq<string>, marker: string, rest: seq<string>)
    requires marker !in before
    ensures FirstAt(before + [marker] + rest, marker, |before|)
    ensures Following(before + [marker] + rest, |before|) == if rest == [] then "" else Strip(rest[0])
  {
    assert (before + [marker] + rest)[..|before|] == before;
  }

  /** The component right after the first `services`, without its white space and cut to 200 characters, names the service. */
  lemma ServiceAfterMarker(before: seq<string>, white: string, name: string, space: string, rest: seq<string>, parent: string)
    requires "services" !in before && IsBlank(white) && IsBlank(space)
    requires name != "" && !IsSpace(name[0]) && !IsSpace(name[|name| - 1])
    ensures var service := InferService(before + ["services"] + ([white + name + space] + rest), parent);
      if |name| <= 200 then service == name else |service| == 200 && service <= name
  {
    var parts := before + ["services"] + ([white + name + space] + rest);
    StripExact(white, name, space);
    FirstAtSplit(before, "services", [white + name + space] + rest);
    assert NamedAfter(parts, "services", name);
  }

  /** What a construction site fills in for itself; the rest is the same for all. */
  datatype Site = RegexSite(line: nat) | AstSite(line: nat) | ModifiedSite

  function CodeFinding(site: Site, kind: FindingType, severity: Severity, confidence: real, service: string, platform: string,
                       path: string, title: string, description: string, id: string, now: real): Finding {
    Finding(
      id := id,
      source := Source.Code,
      kind := kind,
      severity := severity,
      service := service,
      system := platform,
      endpoint := None,
      file := Some(path),
      line := if site.ModifiedSite? then None else Some(site.line),
      symbol := None,
      traceId := None,
      confidence := confidence,
      title := title,
      description := description,
      timestamp := now)
  }

  /** What every construction site says: what was found, where and when; no endpoint, function or trace; and the line if it has one. */
  lemma CodeFindingSays(site: Site, kind: FindingType, severity: Severity, confidence: real, service: string, platform: string,
                        path: string, title: string, description: string, id: string, now: real)
    ensures var f := CodeFinding(site, kind, severity, confidence, service, platform, path, title, description, id, now);
      && f.source == Source.Code && f.endpoint == None && f.symbol == None && f.traceId == None
      && f.file == Some(path) && f.service == service && f.system == platform
      && f.kind == kind && f.severity == severity && f.confidence == confidence
      && f.title == title && f.description == description && f.id == id && f.timestamp == now
      && (f.line == None <==> site == ModifiedSite)
      && forall n: nat :: site == RegexSite(n) || site == AstSite(n) ==> f.line == Some(n)
  {
  }

  /**
    A finding of the code watcher has no endpoint, so it can only be matched
    through the knowledge base: its alerts never carry the default text, and are
    refused only for an empty endpoint on the other side.
  */
  lemma CodeWatcherUsesKnowledgeBase(window: real, texts: Texts, api: Finding, site: Site, kind: FindingType, severity: Severity,
                                     confidence: real, service: string, platform: string, path: string, title: string,
                                     description: string, id: string, now: real)
    requires var f := CodeFinding(site, kind, severity, confidence, service, platform, path, title, description, id, now);
      ShareScope(window, api, f)
    ensures Known(api.kind, kind) && LookupRootCause(texts, api.kind, kind) == texts.known(api.kind, kind)
    ensures var f := CodeFinding(site, kind, severity, confidence, service, platform, path, title, description, id, now);
      && Score(api, f) >= 0.62
      && (path != "" ==> (HasEmptyText(api, f) <==> api.endpoint == Some("")))
  {
  }
}
