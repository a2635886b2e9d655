/** `formatTitle`: the title of the mirrored work item, and a reader for it
    that shows no information is lost. */
module Title {
  import opened Wrappers
  import opened Digits

  /** Which kind of record triggered the run (`payload.issue != null`). */
  datatype Kind = Issue | PullRequest

  function KindWord(kind: Kind): string {
    if kind == Issue then "issue" else "PR"
  }

  /** `[GitHub <issue|PR> #<number>] <title>`. */
  function FormatTitle(kind: Kind, number: nat, title: string): (r: string)
    ensures "[GitHub " <= r
    ensures |title| <= |r| && r[|r| - |title|..] == title
  {
    "[GitHub " + KindWord(kind) + " #" + NatToDecimal(number) + "] " + title
  }

  /** The three things a work-item title is made of. */
  datatype TitleParts = TitleParts(kind: Kind, number: nat, title: string)

  const IssueTitleStart: string := "[GitHub issue #"
  const PullRequestTitleStart: string := "[GitHub PR #"

  /** After the `#`: the number in decimal without leading zeros, then `] `,
      then the original title. */
  function ParseTitleRest(kind: Kind, s: string): Option<TitleParts> {
    var e := DigitRunEnd(s, 0);
    if 0 < e && (e == 1 || s[0] != '0') && e + 2 <= |s| && s[e] == ']' && s[e + 1] == ' ' then
      Some(TitleParts(kind, DecimalValue(s[..e]), s[e + 2..]))
    else
      None
  }

  /** Reads a work-item title back into its parts; None when it is not of that shape. */
  function ParseTitle(t: string): Option<TitleParts> {
    if IssueTitleStart <= t then ParseTitleRest(Issue, t[|IssueTitleStart|..])
    else if PullRequestTitleStart <= t then ParseTitleRest(PullRequest, t[|PullRequestTitleStart|..])
    else None
  }

  lemma ParseTitleRestOf(kind: Kind, number: nat, title: string)
    ensures ParseTitleRest(kind, NatToDecimal(number) + "] " + title) == Some(TitleParts(kind, number, title))
  {
    var d := NatToDecimal(number);
    var s := d + "] " + title;
    assert s[|d|] == ']' && s[|d| + 1] == ' ';
    assert forall k :: 0 <= k < |d| ==> s[k] == d[k];
    DigitRunEndIs(s, 0, |d|);
    assert s[..|d|] == d;
    assert s[|d| + 2..] == title;
    DecimalRoundTrip(number);
  }

  /** The title keeps the kind, the number and the original title: reading it
      back gives all three, so two different records never share a title. */
  lemma {:induction false} TitleRoundTrip(kind: Kind, number: nat, title: string)
    ensures ParseTitle(FormatTitle(kind, number, title)) == Some(TitleParts(kind, number, title))
  {
    var t := FormatTitle(kind, number, title);
    var rest := NatToDecimal(number) + "] " + title;
    if kind == Issue {
      assert t == IssueTitleStart + rest;
      assert t[|IssueTitleStart|..] == rest;
    } else {
      assert t == PullRequestTitleStart + rest;
      assert t[8] == 'P' && IssueTitleStart[8] == 'i';
      assert !(IssueTitleStart <= t);
      assert t[|PullRequestTitleStart|..] == rest;
    }
    ParseTitleRestOf(kind, number, title);
  }

  /** The text after the `#` that the reader accepts is the decimal number,
      `] ` and the title it reads. */
  lemma FormatParsedRest(kind: Kind, s: string)
    requires ParseTitleRest(kind, s).Some?
    ensures var p := ParseTitleRest(kind, s).value; NatToDecimal(p.number) + "] " + p.title == s
  {
    var e := DigitRunEnd(s, 0);
    DecimalCanonical(s[..e]);
    assert s == s[..e] + "] " + s[e + 2..];
  }

  /** Every title the reader accepts is the one `formatTitle` writes for the
      parts it reads; with TitleRoundTrip this fixes the title's exact text. */
  lemma {:induction false} FormatParsedTitle(t: string)
    requires ParseTitle(t).Some?
    ensures var p := ParseTitle(t).value; FormatTitle(p.kind, p.number, p.title) == t
  {
    var p := ParseTitle(t).value;
    var start := if IssueTitleStart <= t then IssueTitleStart else PullRequestTitleStart;
    var rest := t[|start|..];
    assert ParseTitleRest(p.kind, rest) == Some(p);
    FormatParsedRest(p.kind, rest);
    assert start == "[GitHub " + KindWord(p.kind) + " #";
    assert t == start + rest;
  }
}
