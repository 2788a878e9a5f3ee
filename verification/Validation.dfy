/**
  What the two record types accept (`__post_init__` in watchers/schema.py, lines
  128-186 and 262-317), as far as the model keeps their fields.
*/
module Validation {
  import opened Schema

  datatype FindingField = ServiceName | SystemName | Title | Description | Endpoint | File | Symbol | TraceId
                        | Line | Confidence | Timestamp

  /** The first field Finding.__post_init__ objects to. */
  function CheckFinding(f: Finding): Result<Finding, FindingField> {
    if !IsText(f.service, 200) then Err(ServiceName)
    else if !IsText(f.system, 200) then Err(SystemName)
    else if !IsText(f.title, 500) then Err(Title)
    else if !IsText(f.description, 4000) then Err(Description)
    else if !AtMost(f.endpoint, 2048) then Err(Endpoint)
    else if !AtMost(f.file, 4096) then Err(File)
    else if !AtMost(f.symbol, 500) then Err(Symbol)
    else if !AtMost(f.traceId, 256) then Err(TraceId)
    else if f.line.Some? && f.line.value < 1 then Err(Line)
    else if !IsFraction(f.confidence) then Err(Confidence)
    else if f.timestamp <= 0.0 then Err(Timestamp)
    else Ok(f)
  }

  /** The white space of Unicode. */
  lemma Spaces(c: char)
    ensures IsSpace(c) <==> c as int in {
      9, 10, 11, 12, 13, 28, 29, 30, 31, 32, 133, 160, 5760, 8192, 8193, 8194, 8195, 8196, 8197, 8198, 8199, 8200, 8201,
      8202, 8232, 8233, 8239, 8287, 12288}
  {
  }

  /** Some visible character. */
  ghost predicate Inked(s: string) {
    exists i :: 0 <= i < |s| && !IsSpace(s[i])
  }

  ghost predicate Fits(s: string, maximum: nat) {
    Inked(s) && |s| <= maximum
  }

  lemma FitsIff(s: string, maximum: nat)
    ensures IsText(s, maximum) <==> Fits(s, maximum)
  {
  }

  /** Null, or no longer than this, and at least so long. */
  predicate NullOr(s: Option<string>, minimum: nat, maximum: nat) {
    s == None || minimum <= |s.value| <= maximum
  }

  predicate NumberedFromOne(line: Option<int>) {
    line == None || line.value > 0
  }

  /** A finding is accepted exactly within these limits; optional texts may be empty. */
  lemma FindingAcceptedIff(f: Finding)
    ensures CheckFinding(f).Ok? <==> ValidFinding(f)
    ensures ValidFinding(f) <==>
      && Fits(f.service, 200) && Fits(f.system, 200) && Fits(f.title, 500) && Fits(f.description, 4000)
      && NullOr(f.endpoint, 0, 2048) && NullOr(f.file, 0, 4096) && NullOr(f.symbol, 0, 500) && NullOr(f.traceId, 0, 256)
      && NumberedFromOne(f.line) && 0.0 <= f.confidence <= 1.0 && 0.0 < f.timestamp
  {
    FitsIff(f.service, 200);
    FitsIff(f.system, 200);
    FitsIff(f.title, 500);
    FitsIff(f.description, 4000);
  }

  /** An alert is accepted exactly within these; its optional texts are null or not empty. */
  lemma AlertAcceptedIff(a: Alert)
    ensures CheckAlert(a).Ok? <==>
      && Fits(a.service, 200) && Fits(a.system, 200) && Fits(a.rootCause, 4000) && Fits(a.recommendedFix, 4000)
      && NullOr(a.endpoint, 1, 2048) && NullOr(a.file, 1, 4096) && NullOr(a.traceId, 1, 256)
      && NumberedFromOne(a.line) && 0.0 <= a.confidence <= 1.0 && 0.0 < a.timestamp
  {
    FitsIff(a.service, 200);
    FitsIff(a.system, 200);
    FitsIff(a.rootCause, 4000);
    FitsIff(a.recommendedFix, 4000);
  }
}
