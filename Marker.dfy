/** The back-reference marker `AB#<digits>` that a mirrored issue or pull
    request carries in its body: how `find` locates it and how `main` writes
    it back after creating the work item. */
module Marker {
  import opened Wrappers
  import opened Digits

  /** The literal that `find` checks for with `includes` before running its regex. */
  const MarkerPrefix: string := "AB#"

  /** `sub` occurs in `s` starting at index `i`. */
  predicate OccursAt(s: string, sub: string, i: int) {
    0 <= i && i + |sub| <= |s| && s[i..i + |sub|] == sub
  }

  /** `String.prototype.includes`, searching from index `from` onwards. */
  function IncludesFrom(s: string, sub: string, from: nat): (r: bool)
    ensures r <==> exists i :: from <= i && OccursAt(s, sub, i)
    decreases |s| - from
  {
    if |s| < from + |sub| then false
    else OccursAt(s, sub, from) || IncludesFrom(s, sub, from + 1)
  }

  function Includes(s: string, sub: string): (r: bool)
    ensures r <==> exists i :: OccursAt(s, sub, i)
  {
    IncludesFrom(s, sub, 0)
  }

  /** The regular expression `AB#(\d+)` can match at index `i`: the three
      letters `AB#` and at least one digit right after them. */
  predicate MarkerAt(s: string, i: int) {
    0 <= i && i + 3 < |s| && s[i] == 'A' && s[i + 1] == 'B' && s[i + 2] == '#' && IsDigit(s[i + 3])
  }

  ghost predicate HasMarker(s: string) {
    exists i :: MarkerAt(s, i)
  }

  /** The leftmost index at or after `from` where `AB#(\d+)` matches. */
  function FirstMarker(s: string, from: nat): (r: Option<nat>)
    requires from <= |s|
    ensures r.Some? ==> from <= r.value && MarkerAt(s, r.value)
    ensures r.Some? ==> forall j :: from <= j < r.value ==> !MarkerAt(s, j)
    ensures r.None? ==> forall j :: from <= j ==> !MarkerAt(s, j)
    decreases |s| - from
  {
    if from == |s| then None
    else if MarkerAt(s, from) then Some(from)
    else FirstMarker(s, from + 1)
  }

  /** `digits` is what `AB#(\d+)` captures when its leftmost match starts at `i`:
      the greedy, hence maximal, digit run right after the first `AB#` followed by a digit. */
  ghost predicate IsFirstCapture(s: string, i: int, digits: string) {
    MarkerAt(s, i) &&
    (forall j :: 0 <= j < i ==> !MarkerAt(s, j)) &&
    i + 3 + |digits| <= |s| &&
    digits == s[i + 3..i + 3 + |digits|] &&
    (i + 3 + |digits| == |s| || !IsDigit(s[i + 3 + |digits|]))
  }

  /** `find`: the body is absent, or does not include `AB#`, or the regex does
      not match (null); otherwise the first capture group of the leftmost match. */
  function Find(body: Option<string>): (r: Option<string>)
    ensures r.None? <==> body.None? || !HasMarker(body.value)
    ensures r.Some? ==> |r.value| > 0 && AllDigits(r.value)
    ensures r.Some? ==> exists i :: IsFirstCapture(body.value, i, r.value)
  {
    if body.Some? && Includes(body.value, MarkerPrefix) then
      match FirstMarker(body.value, 0)
      case Some(i) =>
        var e := DigitRunEnd(body.value, i + 3);
        assert IsFirstCapture(body.value, i, body.value[i + 3..e]);
        Some(body.value[i + 3..e])
      case None => None
    else
      assert body.Some? ==> !HasMarker(body.value) by {
        if body.Some? && HasMarker(body.value) {
          var i :| MarkerAt(body.value, i);
          MarkerIncludesPrefix(body.value, i);
        }
      }
      None
  }

  /** A place where `AB#(\d+)` matches is a place where `AB#` occurs. */
  lemma MarkerIncludesPrefix(s: string, i: int)
    requires MarkerAt(s, i)
    ensures OccursAt(s, MarkerPrefix, i)
  {
    assert s[i..i + 3] == MarkerPrefix;
  }

  /** A match with no match before it is the one FirstMarker finds. */
  lemma FirstMarkerIs(s: string, m: nat)
    requires MarkerAt(s, m)
    requires forall j :: 0 <= j < m ==> !MarkerAt(s, j)
    ensures FirstMarker(s, 0) == Some(m)
  {
  }

  /** `issueOrPr.body || ""`. */
  function BodyOrEmpty(body: Option<string>): string {
    if body.Some? then body.value else ""
  }

  /** The text appended after the old body: a blank line, then `AB#` and the
      new work item's id in decimal. */
  function MarkerLine(id: nat): (line: string)
    ensures |line| > 5 && line[..5] == "\n\nAB#"
    ensures line[5..] == NatToDecimal(id)
  {
    "\n\nAB#" + NatToDecimal(id)
  }

  /** The body written back after a work item is created: the old body
      (empty when absent) is kept as a prefix and the marker line follows it. */
  function WithMarker(body: Option<string>, id: nat): (r: string)
    ensures BodyOrEmpty(body) <= r
    ensures r[|BodyOrEmpty(body)|..] == MarkerLine(id)
  {
    BodyOrEmpty(body) + MarkerLine(id)
  }

  /** Inside the appended body, no match of `AB#(\d+)` starts before the new
      marker unless it lies wholly inside the old body. */
  lemma EarlyMarkerIsOld(b: string, id: nat, j: int)
    requires 0 <= j < |b| + 2
    requires MarkerAt(b + MarkerLine(id), j)
    ensures MarkerAt(b, j)
  {
    var s := b + MarkerLine(id);
    assert s[|b|] == '\n' && s[|b| + 1] == '\n';
    assert forall k :: 0 <= k < |b| ==> s[k] == b[k];
  }

  /** The layout of the appended body: the old body, two newlines, `AB#`,
      then the decimal id up to the end. */
  lemma WithMarkerLayout(body: Option<string>, id: nat)
    ensures var b, s := BodyOrEmpty(body), WithMarker(body, id);
      |s| == |b| + 5 + |NatToDecimal(id)| &&
      s[|b|] == '\n' && s[|b| + 1] == '\n' &&
      s[|b| + 2] == 'A' && s[|b| + 3] == 'B' && s[|b| + 4] == '#' &&
      s[|b| + 5..] == NatToDecimal(id)
  {
    var b, s := BodyOrEmpty(body), WithMarker(body, id);
    assert s[|b|..] == MarkerLine(id);
    assert s[|b| + 5..] == s[|b|..][5..];
  }

  /** Before the new marker, the appended body has no match when the old body had none. */
  lemma NoEarlyMarker(body: Option<string>, id: nat, j: int)
    requires Find(body).None?
    requires 0 <= j < |BodyOrEmpty(body)| + 2
    ensures !MarkerAt(WithMarker(body, id), j)
  {
    var b := BodyOrEmpty(body);
    assert !HasMarker(b) by {
      if body.Some? { assert !HasMarker(body.value); } else { assert b == []; }
    }
    if MarkerAt(WithMarker(body, id), j) {
      EarlyMarkerIsOld(b, id, j);
    }
  }

  /** The write-back on a body without a marker: `find` then returns exactly
      the decimal id that was written. */
  lemma {:induction false} NewMarkerFound(body: Option<string>, id: nat)
    requires Find(body).None?
    ensures Find(Some(WithMarker(body, id))) == Some(NatToDecimal(id))
  {
    var b := BodyOrEmpty(body);
    var d := NatToDecimal(id);
    var s := WithMarker(body, id);
    var m := |b| + 2;
    WithMarkerLayout(body, id);
    assert MarkerAt(s, m);
    MarkerIncludesPrefix(s, m);
    forall j | 0 <= j < m
      ensures !MarkerAt(s, j)
    {
      NoEarlyMarker(body, id, j);
    }
    FirstMarkerIs(s, m);
    DigitRunEndIs(s, m + 3, |s|);
    assert s[m + 3..|s|] == d;
  }

  /** The write-back on a body that already holds a marker: `find` keeps
      returning that earlier marker. */
  lemma {:induction false} OldMarkerKept(body: Option<string>, id: nat)
    requires Find(body).Some?
    ensures Find(Some(WithMarker(body, id))) == Find(body)
  {
    var b := body.value;
    var s := WithMarker(body, id);
    var i := FirstMarker(b, 0).value;
    var e := DigitRunEnd(b, i + 3);
    assert s == b + MarkerLine(id);
    assert forall k :: 0 <= k < |b| ==> s[k] == b[k];
    assert MarkerAt(s, i);
    MarkerIncludesPrefix(s, i);
    forall j | 0 <= j < i
      ensures !MarkerAt(s, j)
    {
      if MarkerAt(s, j) {
        EarlyMarkerIsOld(b, id, j);
      }
    }
    FirstMarkerIs(s, i);
    assert e == |b| ==> s[e] == '\n';
    DigitRunEndIs(s, i + 3, e);
    assert s[i + 3..e] == b[i + 3..e];
  }
}
