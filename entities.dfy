/** A note as the providers hand it over (joplin_provider/entities/file.go):
    its raw payload, and for the object-store format the header, body and
    `key: value` metadata lines cut out of it. */
module Entities {
  import opened Text
  import opened Wrappers

  const PROVIDER_S3: string := "s3"
  const PROVIDER_WEB_CLIPPER: string := "web_clipper"

  /** The metadata line that opens the metadata block of a raw note. */
  const ID_PREFIX: Bytes := "id: "
  const META_SEPARATOR: Bytes := ": "
  const UPDATED_TIME: Bytes := "updated_time"
  const USER_UPDATED_TIME: Bytes := "user_updated_time"

  /** The value of a File: what Go copies when a File is assigned, passed or
      appended to a slice. */
  datatype FileValue = FileValue(
    provider: string,
    name: string,
    raw: Bytes,
    header: Bytes,
    data: Bytes,
    meta: seq<Bytes>)

  /** entities.File{} */
  const ZERO_FILE: FileValue := FileValue("", "", [], [], [], [])

  /** The first index i with lo <= i < hi whose line starts with `needle`. */
  function FirstMatch(lines: seq<Bytes>, needle: Bytes, lo: nat, hi: nat): (r: Option<nat>)
    requires lo <= hi <= |lines|
    ensures r.Some? ==> lo <= r.value < hi && HasPrefix(lines[r.value], needle)
    ensures r.Some? ==> forall j :: lo <= j < r.value ==> !HasPrefix(lines[j], needle)
    ensures r.None? ==> forall j :: lo <= j < hi ==> !HasPrefix(lines[j], needle)
    decreases hi - lo
  {
    if lo >= hi then None
    else if HasPrefix(lines[lo], needle) then Some(lo)
    else FirstMatch(lines, needle, lo + 1, hi)
  }

  /** Replacing one line by another, where neither starts with `needle`,
      leaves the first match of `needle` where it was. */
  lemma {:induction false} FirstMatchIgnoresOtherLine(lines: seq<Bytes>, needle: Bytes, lo: nat, hi: nat, k: nat, line: Bytes)
    requires lo <= hi <= |lines| && k < |lines|
    requires !HasPrefix(lines[k], needle) && !HasPrefix(line, needle)
    ensures FirstMatch(lines[k := line], needle, lo, hi) == FirstMatch(lines, needle, lo, hi)
    decreases hi - lo
  {
    if lo < hi {
      FirstMatchIgnoresOtherLine(lines, needle, lo + 1, hi, k, line);
    }
  }

  /** Where SplitRaw starts the metadata: the first line i with
      1 <= i <= |lines| - 2 that starts with "id: " (never the last line). */
  function MetaStart(lines: seq<Bytes>): Option<nat> {
    if |lines| < 2 then None else FirstMatch(lines, ID_PREFIX, 1, |lines| - 1)
  }

  /** What SplitRaw does to a File value (file.go:32-54). */
  function SplitOf(f: FileValue): (r: FileValue)
    ensures r.provider == f.provider && r.name == f.name && r.raw == f.raw
    ensures f.provider != PROVIDER_S3 ==> r == f
  {
    if f.provider != PROVIDER_S3 then f
    else
      var parts := Split(f.raw);
      var g := f.(header := parts[0]);
      if |parts| < 2 then g
      else
        match MetaStart(parts)
        case None => g
        case Some(i) => g.(data := TrimSpace(Join(parts[1..i])), meta := parts[i..])
  }

  /** The raw payload FormatRaw assembles: header, blank line, body, blank
      line, metadata lines. */
  function Formatted(header: Bytes, data: Bytes, meta: seq<Bytes>): Bytes {
    header + "\n\n" + data + "\n\n" + Join(meta)
  }

  /** What FormatRaw does to a File value (file.go:56-68). */
  function FormatOf(f: FileValue): (r: FileValue)
    ensures f.provider != PROVIDER_S3 ==> r == f
    ensures r == f.(raw := r.raw)
  {
    if f.provider != PROVIDER_S3 then f else f.(raw := Formatted(f.header, f.data, f.meta))
  }

  /** SplitRaw after FormatRaw gives back header, body and metadata, for a
      header without newline, a trimmed body none of whose lines starts with
      "id: ", and at least two newline-free metadata lines the first of which
      starts with "id: ". */
  lemma SplitAfterFormat(f: FileValue)
    requires f.provider == PROVIDER_S3
    requires NEWLINE !in f.header
    requires Trimmed(f.data)
    requires forall k :: 0 <= k < |Split(f.data)| ==> !HasPrefix(Split(f.data)[k], ID_PREFIX)
    requires |f.meta| >= 2 && HasPrefix(f.meta[0], ID_PREFIX)
    requires forall k :: 0 <= k < |f.meta| ==> NEWLINE !in f.meta[k]
    ensures SplitOf(FormatOf(f)) == FormatOf(f)
  {
    var g := FormatOf(f);
    var body := Split(f.data);
    var lines := [f.header] + [[]] + body + [[]] + f.meta;
    var i := 3 + |body|;
    assert Split(g.raw) == lines by {
      LinesOfFormatted(f.header, f.data, f.meta);
    }
    assert MetaStart(lines) == Some(i) && lines[0] == f.header && lines[i..] == f.meta
        && TrimSpace(Join(lines[1..i])) == f.data by {
      MetaOfFormatted(f.header, body, f.meta);
      BodyBetweenEmptyLines(f.data);
    }
    SplitOfLines(g, lines, i);
  }

  /** In the lines of a formatted payload the metadata starts right after
      the body's closing blank line, when no body line starts with "id: " and
      the first metadata line does. */
  lemma MetaOfFormatted(h: Bytes, body: seq<Bytes>, m: seq<Bytes>)
    requires forall k :: 0 <= k < |body| ==> !HasPrefix(body[k], ID_PREFIX)
    requires |m| >= 2 && HasPrefix(m[0], ID_PREFIX)
    ensures var lines := [h] + [[]] + body + [[]] + m;
      && MetaStart(lines) == Some(3 + |body|)
      && lines[0] == h && lines[1..3 + |body|] == [[]] + body + [[]] && lines[3 + |body|..] == m
  {
    var lines := [h] + [[]] + body + [[]] + m;
    var i := 3 + |body|;
    assert lines[i] == m[0];
    forall j | 1 <= j < i
      ensures !HasPrefix(lines[j], ID_PREFIX)
    {
      if 2 <= j < 2 + |body| {
        assert lines[j] == body[j - 2];
      }
    }
    MetaStartAt(lines, i);
    assert lines[1..i] == [[]] + body + [[]];
    assert lines[i..] == m;
  }

  /** What SplitOf makes of an S3 file whose raw payload splits into
      `lines` with the metadata starting at line i. */
  lemma SplitOfLines(g: FileValue, lines: seq<Bytes>, i: nat)
    requires g.provider == PROVIDER_S3 && Split(g.raw) == lines
    requires |lines| >= 2 && MetaStart(lines) == Some(i)
    ensures SplitOf(g) == g.(header := lines[0], data := TrimSpace(Join(lines[1..i])), meta := lines[i..])
  {
  }

  /** What SplitOf makes of an S3 file whose raw payload has no line that
      opens the metadata: only the header is set. */
  lemma SplitOfUnmarked(g: FileValue, lines: seq<Bytes>)
    requires g.provider == PROVIDER_S3 && Split(g.raw) == lines
    requires |lines| < 2 || MetaStart(lines) == None
    ensures SplitOf(g) == g.(header := lines[0])
  {
  }

  /** The lines of a formatted payload: the header, an empty line, the lines
      of the body, an empty line and the metadata lines. */
  lemma LinesOfFormatted(h: Bytes, d: Bytes, m: seq<Bytes>)
    requires NEWLINE !in h
    requires |m| >= 1 && forall k :: 0 <= k < |m| ==> NEWLINE !in m[k]
    ensures Split(Formatted(h, d, m)) == [h] + [[]] + Split(d) + [[]] + m
  {
    var t := [] + [NEWLINE] + (d + [NEWLINE] + ([] + [NEWLINE] + Join(m)));
    assert Formatted(h, d, m) == h + [NEWLINE] + t;
    LinesAfterHeader(d, m);
    SplitAround(h, t);
    SplitWithoutNewline(h);
    assert [h] + ([[]] + Split(d) + [[]] + m) == [h] + [[]] + Split(d) + [[]] + m;
  }

  /** The lines after the header's newline: a blank line, the body's lines,
      a blank line and the metadata lines. */
  lemma LinesAfterHeader(d: Bytes, m: seq<Bytes>)
    requires |m| >= 1 && forall k :: 0 <= k < |m| ==> NEWLINE !in m[k]
    ensures Split([] + [NEWLINE] + (d + [NEWLINE] + ([] + [NEWLINE] + Join(m)))) == [[]] + Split(d) + [[]] + m
  {
    var t := d + [NEWLINE] + ([] + [NEWLINE] + Join(m));
    LinesAfterBody(d, m);
    SplitAround([], t);
    assert [[]] + (Split(d) + [[]] + m) == [[]] + Split(d) + [[]] + m;
  }

  /** The lines of the body, then a blank line and the metadata lines. */
  lemma LinesAfterBody(d: Bytes, m: seq<Bytes>)
    requires |m| >= 1 && forall k :: 0 <= k < |m| ==> NEWLINE !in m[k]
    ensures Split(d + [NEWLINE] + ([] + [NEWLINE] + Join(m))) == Split(d) + [[]] + m
  {
    SplitJoin(m);
    SplitAround([], Join(m));
    SplitAround(d, [] + [NEWLINE] + Join(m));
    assert Split(d) + ([[]] + m) == Split(d) + [[]] + m;
  }

  /** The metadata starts at the first line i, between the second and the
      last but one, that starts with "id: ". */
  lemma MetaStartAt(lines: seq<Bytes>, i: nat)
    requires 1 <= i < |lines| - 1 && HasPrefix(lines[i], ID_PREFIX)
    requires forall j :: 1 <= j < i ==> !HasPrefix(lines[j], ID_PREFIX)
    ensures MetaStart(lines) == Some(i)
  {
    var r := FirstMatch(lines, ID_PREFIX, 1, |lines| - 1);
    assert r.Some?;
    assert r.value >= i;
  }

  /** Joining an empty line, the lines of a body and an empty line, and
      trimming, gives back a trimmed body. */
  lemma BodyBetweenEmptyLines(d: Bytes)
    requires Trimmed(d)
    ensures TrimSpace(Join([[]] + Split(d) + [[]])) == d
  {
    var body := Split(d);
    var empty: Bytes := [];
    assert Join([empty]) == empty;
    JoinConcat([empty], body);
    JoinSplit(d);
    assert Join([empty] + body) == [NEWLINE] + d;
    JoinConcat([empty] + body, [empty]);
    assert Join([empty] + body + [empty]) == [NEWLINE] + d + [NEWLINE];
    TrimSpaceBetweenNewlines(d);
  }

  /** The prefix MetaData and SetMetaData look for: the name followed by
      ": ", added only when the name does not already end in it. */
  function Needle(name: Bytes): (needle: Bytes)
    ensures HasSuffix(needle, META_SEPARATOR)
  {
    if HasSuffix(name, META_SEPARATOR) then name
    else
      assert (name + META_SEPARATOR)[|name|..] == META_SEPARATOR;
      name + META_SEPARATOR
  }

  /** A name and the same name followed by ": " look up the same metadata. */
  lemma NeedleOfSeparated(name: Bytes)
    requires !HasSuffix(name, META_SEPARATOR)
    ensures Needle(name + META_SEPARATOR) == Needle(name) == name + META_SEPARATOR
  {
    assert (name + META_SEPARATOR)[|name|..] == META_SEPARATOR;
  }

  /** What MetaData returns: the rest of the first metadata line that starts
      with the needle, or "" when none does. */
  function LookupMeta(meta: seq<Bytes>, name: Bytes): (value: Bytes)
    ensures (forall j :: 0 <= j < |meta| ==> !HasPrefix(meta[j], Needle(name))) ==> value == []
    ensures forall i ::
      0 <= i < |meta| && HasPrefix(meta[i], Needle(name)) &&
      (forall j :: 0 <= j < i ==> !HasPrefix(meta[j], Needle(name)))
      ==> value == meta[i][|Needle(name)|..]
  {
    var needle := Needle(name);
    match FirstMatch(meta, needle, 0, |meta|)
    case None => []
    case Some(i) => meta[i][|needle|..]
  }

  /** What SetMetaData does to the metadata lines, and whether it found the
      key: only the first line with the needle is rewritten, to needle +
      value; no line is ever added. */
  function UpdateMeta(meta: seq<Bytes>, name: Bytes, value: Bytes): (r: (seq<Bytes>, bool))
    ensures r.1 <==> exists i :: 0 <= i < |meta| && HasPrefix(meta[i], Needle(name))
    ensures |r.0| == |meta|
    ensures !r.1 ==> r.0 == meta
    ensures r.1 ==> LookupMeta(r.0, name) == value
    ensures forall j :: 0 <= j < |meta| && r.0[j] != meta[j] ==>
      HasPrefix(meta[j], Needle(name)) && r.0[j] == Needle(name) + value
    ensures r.1 ==> (exists i :: 0 <= i < |meta| && HasPrefix(meta[i], Needle(name))
                       && (forall j :: 0 <= j < i ==> !HasPrefix(meta[j], Needle(name)))
                       && r.0 == meta[i := Needle(name) + value])
  {
    var needle := Needle(name);
    match FirstMatch(meta, needle, 0, |meta|)
    case None => (meta, false)
    case Some(i) =>
      var updated := meta[i := needle + value];
      assert HasPrefix(updated[i], needle) && updated[i][|needle|..] == value;
      (updated, true)
  }

  /** A line cannot start with both "updated_time: " and
      "user_updated_time: ". */
  lemma TimestampNeedlesDiffer(line: Bytes)
    ensures !(HasPrefix(line, Needle(UPDATED_TIME)) && HasPrefix(line, Needle(USER_UPDATED_TIME)))
  {
    var up, user := Needle(UPDATED_TIME), Needle(USER_UPDATED_TIME);
    assert up == UPDATED_TIME + META_SEPARATOR by {
      assert !HasSuffix(UPDATED_TIME, META_SEPARATOR);
    }
    assert user == USER_UPDATED_TIME + META_SEPARATOR by {
      assert !HasSuffix(USER_UPDATED_TIME, META_SEPARATOR);
    }
    if HasPrefix(line, up) {
      assert line[1] == up[1] == 'p';
      assert line[1] != user[1];
    }
  }

  /** What SetData does to a File value, and the error it returns
      (file.go:106-126). `now` is the timestamp SetData reads from the clock. */
  function SetDataOf(f: FileValue, data: Bytes, now: Bytes): (FileValue, Option<Error>) {
    var g := f.(data := data);
    if f.provider != PROVIDER_S3 then (g, None)
    else
      var (m1, found1) := UpdateMeta(g.meta, UPDATED_TIME, now);
      if !found1 then (g, Some(Wrapped("no updated_time", UnexpectedMetadata)))
      else
        var (m2, found2) := UpdateMeta(m1, USER_UPDATED_TIME, now);
        if !found2 then (g.(meta := m1), Some(Wrapped("no user_updated_time", UnexpectedMetadata)))
        else (FormatOf(g.(meta := m2)), None)
  }

  /** The metadata has a line for this key. */
  predicate HasMeta(meta: seq<Bytes>, name: Bytes) {
    exists i :: 0 <= i < |meta| && HasPrefix(meta[i], Needle(name))
  }

  /** SetData always replaces the body. Outside the object-store format it
      touches nothing else and cannot fail. In that format it fails exactly
      when `updated_time` or `user_updated_time` is missing, and then does
      not rebuild the raw payload; otherwise both keys read back as `now`,
      no metadata line is added and the raw payload is rebuilt. */
  lemma SetDataRefreshesTimestamps(f: FileValue, data: Bytes, now: Bytes)
    ensures var (g, err) := SetDataOf(f, data, now);
      && g.data == data
      && g.provider == f.provider && g.name == f.name && g.header == f.header
      && (f.provider != PROVIDER_S3 ==> err.None? && g.meta == f.meta && g.raw == f.raw)
      && (f.provider == PROVIDER_S3 ==>
            (err.None? <==> HasMeta(f.meta, UPDATED_TIME) && HasMeta(f.meta, USER_UPDATED_TIME)))
      && (err.Some? ==> g.raw == f.raw)
      && (f.provider == PROVIDER_S3 && err.None? ==>
            && LookupMeta(g.meta, UPDATED_TIME) == now
            && LookupMeta(g.meta, USER_UPDATED_TIME) == now
            && |g.meta| == |f.meta|
            && g.raw == Formatted(f.header, data, g.meta))
  {
    if f.provider == PROVIDER_S3 {
      var up, user := Needle(UPDATED_TIME), Needle(USER_UPDATED_TIME);
      var m1 := UpdateMeta(f.meta, UPDATED_TIME, now).0;
      forall j | 0 <= j < |f.meta|
        ensures !(HasPrefix(f.meta[j], up) && HasPrefix(f.meta[j], user))
      {
        TimestampNeedlesDiffer(f.meta[j]);
      }
      NeedlePrefixesLine(up, now);
      TimestampNeedlesDiffer(up + now);
      UpdateKeepsOtherKey(f.meta, UPDATED_TIME, now, USER_UPDATED_TIME);
      forall j | 0 <= j < |m1|
        ensures !(HasPrefix(m1[j], user) && HasPrefix(m1[j], up))
      {
        TimestampNeedlesDiffer(m1[j]);
      }
      NeedlePrefixesLine(user, now);
      TimestampNeedlesDiffer(user + now);
      UpdateKeepsOtherKey(m1, USER_UPDATED_TIME, now, UPDATED_TIME);
    }
  }

  /** The metadata has a line for the key exactly when the search finds one. */
  lemma HasMetaIff(meta: seq<Bytes>, name: Bytes)
    ensures HasMeta(meta, name) <==> FirstMatch(meta, Needle(name), 0, |meta|).Some?
  {
    var r := FirstMatch(meta, Needle(name), 0, |meta|);
    if r.Some? {
      assert HasPrefix(meta[r.value], Needle(name));
    }
  }

  /** Updating one key leaves the lookup of another key alone when no line
      carries both needles and the rewritten line does not carry the other. */
  lemma UpdateKeepsOtherKey(meta: seq<Bytes>, name: Bytes, value: Bytes, other: Bytes)
    requires forall j :: 0 <= j < |meta| ==> !(HasPrefix(meta[j], Needle(name)) && HasPrefix(meta[j], Needle(other)))
    requires !HasPrefix(Needle(name) + value, Needle(other))
    ensures var m := UpdateMeta(meta, name, value).0;
      HasMeta(m, other) == HasMeta(meta, other) && LookupMeta(m, other) == LookupMeta(meta, other)
  {
    var m := UpdateMeta(meta, name, value).0;
    HasMetaIff(m, other);
    HasMetaIff(meta, other);
    match FirstMatch(meta, Needle(name), 0, |meta|)
    case None =>
    case Some(i) =>
      FirstMatchIgnoresOtherLine(meta, Needle(other), 0, |meta|, i, Needle(name) + value);
  }

  /** A needle followed by a value starts with the needle. */
  lemma NeedlePrefixesLine(needle: Bytes, value: Bytes)
    ensures HasPrefix(needle + value, needle)
  {
    assert (needle + value)[..|needle|] == needle;
  }

  /** entities.File: a note as one variable of the Go code holds it; its
      methods change its fields in place. */
  class File {
    var provider: string
    var name: string
    var raw: Bytes
    var header: Bytes
    var data: Bytes
    var meta: seq<Bytes>

    /** A File variable initialised with a copy of `v`. */
    constructor (v: FileValue)
      ensures Value() == v
    {
      provider, name, raw := v.provider, v.name, v.raw;
      header, data, meta := v.header, v.data, v.meta;
    }

    /** The current value of the fields. */
    function Value(): FileValue
      reads this
    {
      FileValue(provider, name, raw, header, data, meta)
    }

    /** Cuts the raw payload into header, body and metadata: a no-op unless
        the provider is "s3"; the header is always the first line; body and
        metadata are set only when some line 1..n-2 starts with "id: ". */
    method SplitRaw()
      modifies this
      ensures Value() == SplitOf(old(Value()))
    {
      ghost var v := Value();
      if provider != PROVIDER_S3 {
        return;
      }
      var parts := Split(raw);
      var body, lines := data, meta;
      if |parts| < 2 {
        SplitOfUnmarked(v, parts);
      } else {
        // Body and metadata are set once the line that opens the metadata
        // is found, as the Go loop does before it breaks.
        var i := MetaLine(parts);
        if i < |parts| - 1 {
          body, lines := TrimSpace(Join(parts[1..i])), parts[i..];
          SplitOfLines(v, parts, i);
        } else {
          SplitOfUnmarked(v, parts);
        }
      }
      assert SplitOf(v) == v.(header := parts[0], data := body, meta := lines);
      header, data, meta := parts[0], body, lines;
    }

    /** The search of SplitRaw's loop: the first line after the header,
        and before the last line, that starts with "id: ", or |lines| - 1
        when there is none. */
    static method MetaLine(lines: seq<Bytes>) returns (i: nat)
      requires |lines| >= 2
      ensures 1 <= i <= |lines| - 1
      ensures MetaStart(lines) == if i < |lines| - 1 then Some(i) else None
    {
      i := 1;
      while i < |lines| - 1 && !HasPrefix(lines[i], ID_PREFIX)
        invariant 1 <= i <= |lines| - 1
        invariant FirstMatch(lines, ID_PREFIX, i, |lines| - 1) == MetaStart(lines)
      {
        i := i + 1;
      }
    }

    /** Rebuilds the raw payload from header, body and metadata; a no-op
        unless the provider is "s3". */
    method FormatRaw()
      modifies this
      ensures Value() == FormatOf(old(Value()))
    {
      if provider != PROVIDER_S3 {
        return;
      }
      raw := header + "\n\n" + data + "\n\n" + Join(meta);
    }

    /** The value of the first metadata line that starts with `name` + ": "
        (or with `name`, when it already ends in ": "); "" when none does. */
    method MetaData(name: Bytes) returns (value: Bytes)
      ensures value == LookupMeta(meta, name)
    {
      var needle := Needle(name);
      var i := 0;
      while i < |meta|
        invariant 0 <= i <= |meta|
        invariant forall j :: 0 <= j < i ==> !HasPrefix(meta[j], needle)
      {
        if HasPrefix(meta[i], needle) {
          return meta[i][|needle|..];
        }
        i := i + 1;
      }
      return [];
    }

    /** Rewrites the first metadata line that starts with the needle to
        needle + value and reports whether there was one. */
    method SetMetaData(name: Bytes, value: Bytes) returns (ok: bool)
      modifies this
      ensures (meta, ok) == UpdateMeta(old(meta), name, value)
      ensures Value() == old(Value()).(meta := meta)
    {
      var needle := Needle(name);
      var i := 0;
      while i < |meta|
        invariant 0 <= i <= |meta|
        invariant FirstMatch(meta, needle, i, |meta|) == FirstMatch(meta, needle, 0, |meta|)
        invariant Value() == old(Value())
      {
        if HasPrefix(meta[i], needle) {
          meta := meta[i := needle + value];
          return true;
        }
        i := i + 1;
      }
      return false;
    }

    /** Replaces the body; for the object-store format also stamps
        `updated_time` and `user_updated_time` with `now` and rebuilds the
        raw payload. */
    method SetData(data: Bytes, now: Bytes) returns (err: Option<Error>)
      modifies this
      ensures (Value(), err) == SetDataOf(old(Value()), data, now)
    {
      this.data := data;
      if provider != PROVIDER_S3 {
        return None;
      }
      var ok := SetMetaData(UPDATED_TIME, now);
      if !ok {
        return Some(Wrapped("no updated_time", UnexpectedMetadata));
      }
      ok := SetMetaData(USER_UPDATED_TIME, now);
      if !ok {
        return Some(Wrapped("no user_updated_time", UnexpectedMetadata));
      }
      FormatRaw();
      return None;
    }
  }
}
