/** The inputs of `create` that come from configuration and the repository
    name: the short repository name, the tag string and the work-item type. */
module ItemFields {
  import opened Wrappers

  /** Puts segments back together with `sep` between them (`Array.prototype.join`). */
  function Join(parts: seq<string>, sep: char): string
    requires |parts| >= 1
    decreases |parts|
  {
    if |parts| == 1 then parts[0] else parts[0] + [sep] + Join(parts[1..], sep)
  }

  /** `String.prototype.split` on a one-character separator: the segments
      between separators, empty ones included; never an empty list. */
  function Split(s: string, sep: char): (parts: seq<string>)
    ensures |parts| >= 1
    ensures forall k :: 0 <= k < |parts| ==> sep !in parts[k]
    ensures Join(parts, sep) == s
    ensures |parts| == 1 <==> sep !in s
    decreases |s|
  {
    if s == [] then [[]]
    else
      var rest := Split(s[1..], sep);
      if s[0] == sep then
        assert ([[]] + rest)[1..] == rest;
        [[]] + rest
      else
        var parts := [[s[0]] + rest[0]] + rest[1..];
        assert parts[1..] == rest[1..];
        assert s == [s[0]] + s[1..];
        parts
  }

  /** A string with no separator splits into itself alone. */
  lemma {:induction false} SplitNoSeparator(s: string, sep: char)
    requires sep !in s
    ensures Split(s, sep) == [s]
  {
    if s != [] {
      SplitNoSeparator(s[1..], sep);
    }
  }

  /** A separator-free head splits off as the first segment. */
  lemma {:induction false} SplitAfterHead(head: string, sep: char, tail: string)
    requires sep !in head
    ensures Split(head + [sep] + tail, sep) == [head] + Split(tail, sep)
    decreases |head|
  {
    var s := head + [sep] + tail;
    if head == [] {
      assert s[1..] == tail;
    } else {
      assert s[1..] == head[1..] + [sep] + tail;
      SplitAfterHead(head[1..], sep, tail);
      assert [head[0]] + head[1..] == head;
    }
  }

  /** Splitting undoes joining separator-free segments. */
  lemma {:induction false} SplitJoin(parts: seq<string>, sep: char)
    requires |parts| >= 1
    requires forall k :: 0 <= k < |parts| ==> sep !in parts[k]
    ensures Split(Join(parts, sep), sep) == parts
    decreases |parts|
  {
    if |parts| == 1 {
      SplitNoSeparator(parts[0], sep);
    } else {
      SplitJoin(parts[1..], sep);
      SplitAfterHead(parts[0], sep, Join(parts[1..], sep));
    }
  }

  /** `full_name.split("/")[1]`: the second `/`-separated segment of the
      repository's full name; undefined (None) when there is no `/`. */
  function ShortRepoName(fullName: string): (r: Option<string>)
    ensures r.Some? <==> '/' in fullName
    ensures r.Some? ==> '/' !in r.value
    ensures r.Some? ==> r.value == Split(fullName, '/')[1]
  {
    var parts := Split(fullName, '/');
    if |parts| > 1 then Some(parts[1]) else None
  }

  /** For a full name `owner/name` the short name is `name`. */
  lemma ShortRepoNameOf(owner: string, name: string)
    requires '/' !in owner && '/' !in name
    ensures ShortRepoName(owner + "/" + name) == Some(name)
  {
    SplitJoin([owner, name], '/');
    assert Join([owner, name], '/') == owner + "/" + name by {
      assert Join([owner, name][1..], '/') == name;
    }
  }

  /** How JavaScript writes a value that may be undefined into a string. */
  function TextOf(v: Option<string>): string {
    if v.Some? then v.value else "undefined"
  }

  /** The `ado_tags` input followed by `;` and the short repository name when
      the input is non-empty, else the short repository name alone (which is
      undefined, None, when the full name has no `/`). */
  function Tags(adoTags: string, fullName: string): (t: Option<string>)
    ensures t.Some? <==> adoTags != "" || '/' in fullName
    ensures adoTags != "" ==> adoTags + ";" <= t.value
    ensures adoTags != "" ==> t == Some(adoTags + ";" + TextOf(ShortRepoName(fullName)))
    ensures adoTags == "" ==> t == ShortRepoName(fullName)
  {
    var shortName := ShortRepoName(fullName);
    if adoTags != "" then Some(adoTags + ";" + TextOf(shortName)) else shortName
  }

  /** For a repository `owner/name`, the tags are `<ado_tags>;name`, or `name`
      when no tags are configured. */
  lemma {:induction false} TagsOf(adoTags: string, owner: string, name: string)
    requires '/' !in owner && '/' !in name
    ensures Tags(adoTags, owner + "/" + name) == Some(if adoTags != "" then adoTags + ";" + name else name)
  {
    ShortRepoNameOf(owner, name);
  }

  /** The `ado_work_item_type` input, or `Bug` when it is empty. */
  function ItemType(adoWorkItemType: string): (r: string)
    ensures r != ""
    ensures adoWorkItemType != "" ==> r == adoWorkItemType
    ensures adoWorkItemType == "" ==> r == "Bug"
  {
    if adoWorkItemType != "" then adoWorkItemType else "Bug"
  }
}
