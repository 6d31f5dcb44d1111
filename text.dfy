/** The byte-slice helpers of Go's `bytes` and `strings` packages that the
    code relies on, over immutable sequences.

    A `char` here stands for one rune of UTF-8 encoded text. Every byte the
    code compares against ('\n', '!', ' ', the checkbox prefixes) is ASCII,
    and an ASCII byte never occurs inside the encoding of another rune, so
    splitting, prefix tests and counting work the same on runes as on bytes. */
module Text {

  type Bytes = seq<char>

  const NEWLINE: char := '\n'

  /** bytes.HasPrefix */
  predicate HasPrefix(s: Bytes, p: Bytes) {
    |p| <= |s| && s[..|p|] == p
  }

  /** bytes.HasSuffix */
  predicate HasSuffix(s: Bytes, p: Bytes) {
    |p| <= |s| && s[|s| - |p|..] == p
  }

  /** strings.TrimSuffix: drops `p` once from the end when it is there. */
  function TrimSuffix(s: Bytes, p: Bytes): (r: Bytes)
    ensures HasSuffix(s, p) ==> r + p == s
    ensures !HasSuffix(s, p) ==> r == s
  {
    if HasSuffix(s, p) then s[..|s| - |p|] else s
  }

  /** Appending a suffix and trimming it again gives back the original. */
  lemma TrimSuffixOfAppended(s: Bytes, p: Bytes)
    ensures HasSuffix(s + p, p)
    ensures TrimSuffix(s + p, p) == s
  {
    assert (s + p)[|s + p| - |p|..] == p;
    assert (s + p)[..|s + p| - |p|] == s;
  }

  /** bytes.Contains, searched from the left. */
  predicate Contains(s: Bytes, sub: Bytes)
    decreases |s|
  {
    HasPrefix(s, sub) || (s != [] && Contains(s[1..], sub))
  }

  /** `sub` occurs in `s` starting at position `i`. */
  predicate OccursAt(s: Bytes, sub: Bytes, i: nat) {
    i + |sub| <= |s| && s[i..i + |sub|] == sub
  }

  /** `Contains` holds exactly when `sub` occurs at some position of `s`. */
  lemma {:induction false} ContainsIff(s: Bytes, sub: Bytes)
    ensures Contains(s, sub) <==> exists i: nat :: OccursAt(s, sub, i)
    decreases |s|
  {
    if HasPrefix(s, sub) {
      assert OccursAt(s, sub, 0);
    } else if s == [] {
    } else {
      ContainsIff(s[1..], sub);
      if Contains(s[1..], sub) {
        var i: nat :| OccursAt(s[1..], sub, i);
        assert s[i + 1..i + 1 + |sub|] == s[1..][i..i + |sub|];
        assert OccursAt(s, sub, i + 1);
      }
      if exists i: nat :: OccursAt(s, sub, i) {
        var i: nat :| OccursAt(s, sub, i);
        assert i != 0;
        assert s[1..][i - 1..i - 1 + |sub|] == s[i..i + |sub|];
        assert OccursAt(s[1..], sub, i - 1);
      }
    }
  }

  /** Nothing non-empty is contained in an empty slice. */
  lemma EmptyContainsNothing(sub: Bytes)
    requires sub != []
    ensures !Contains([], sub)
  {
  }

  /** bytes.Split(s, []byte("\n")): the pieces between newlines; there is
      always one more piece than there are newlines. */
  function Split(s: Bytes): (parts: seq<Bytes>)
    ensures |parts| >= 1
    ensures forall k :: 0 <= k < |parts| ==> NEWLINE !in parts[k]
    decreases |s|
  {
    if s == [] then [[]]
    else
      var rest := Split(s[1..]);
      if s[0] == NEWLINE then [[]] + rest
      else [[s[0]] + rest[0]] + rest[1..]
  }

  /** bytes.Join(parts, []byte("\n")) */
  function Join(parts: seq<Bytes>): Bytes {
    if parts == [] then []
    else if |parts| == 1 then parts[0]
    else parts[0] + [NEWLINE] + Join(parts[1..])
  }

  /** Joining the pieces of a split restores the input. */
  lemma {:induction false} JoinSplit(s: Bytes)
    ensures Join(Split(s)) == s
    decreases |s|
  {
    if s != [] {
      var rest := Split(s[1..]);
      JoinSplit(s[1..]);
      if s[0] == NEWLINE {
        assert Split(s) == [[]] + rest;
        assert s == [NEWLINE] + s[1..];
      } else {
        assert Split(s) == [[s[0]] + rest[0]] + rest[1..];
        if |rest| == 1 {
          assert s == [s[0]] + rest[0];
        } else {
          assert Join(rest) == rest[0] + [NEWLINE] + Join(rest[1..]);
          assert s == [s[0]] + s[1..];
        }
      }
    }
  }

  /** Joining two non-empty lists of pieces puts one newline between them. */
  lemma {:induction false} JoinConcat(a: seq<Bytes>, b: seq<Bytes>)
    requires |a| >= 1 && |b| >= 1
    ensures Join(a + b) == Join(a) + [NEWLINE] + Join(b)
    decreases |a|
  {
    if |a| > 1 {
      assert (a + b)[1..] == a[1..] + b;
      JoinConcat(a[1..], b);
    }
  }

  /** A slice without a newline is split into itself. */
  lemma {:induction false} SplitWithoutNewline(s: Bytes)
    requires NEWLINE !in s
    ensures Split(s) == [s]
    decreases |s|
  {
    if s != [] {
      assert NEWLINE !in s[1..];
      SplitWithoutNewline(s[1..]);
      assert s == [s[0]] + s[1..];
    }
  }

  /** Splitting around a newline splits each side separately. */
  lemma {:induction false} SplitAround(a: Bytes, b: Bytes)
    ensures Split(a + [NEWLINE] + b) == Split(a) + Split(b)
    decreases |a|
  {
    var s := a + [NEWLINE] + b;
    if a == [] {
      assert s[1..] == b;
    } else {
      assert s[1..] == a[1..] + [NEWLINE] + b;
      SplitAround(a[1..], b);
    }
  }

  /** Splitting the join of newline-free pieces gives back the pieces. */
  lemma {:induction false} SplitJoin(parts: seq<Bytes>)
    requires |parts| >= 1
    requires forall k :: 0 <= k < |parts| ==> NEWLINE !in parts[k]
    ensures Split(Join(parts)) == parts
    decreases |parts|
  {
    if |parts| == 1 {
      SplitWithoutNewline(parts[0]);
    } else {
      SplitAround(parts[0], Join(parts[1..]));
      SplitWithoutNewline(parts[0]);
      SplitJoin(parts[1..]);
      assert parts == [parts[0]] + parts[1..];
    }
  }

  /** unicode.IsSpace, which bytes.TrimSpace applies to every rune. */
  predicate IsSpace(c: char) {
    || c == '\t' || c == '\n' || c == '\U{000B}' || c == '\U{000C}' || c == '\r' || c == ' '
    || c == '\U{0085}' || c == '\U{00A0}' || c == '\U{1680}'
    || ('\U{2000}' <= c <= '\U{200A}')
    || c == '\U{2028}' || c == '\U{2029}' || c == '\U{202F}' || c == '\U{205F}' || c == '\U{3000}'
  }

  /** No white space at either end. */
  predicate Trimmed(s: Bytes) {
    s == [] || (!IsSpace(s[0]) && !IsSpace(s[|s| - 1]))
  }

  /** Drops the leading white space. */
  function TrimLeft(s: Bytes): (r: Bytes)
    ensures |r| <= |s| && r == s[|s| - |r|..]
    ensures r == [] || !IsSpace(r[0])
    ensures forall i :: 0 <= i < |s| - |r| ==> IsSpace(s[i])
    decreases |s|
  {
    if s != [] && IsSpace(s[0]) then TrimLeft(s[1..]) else s
  }

  /** Drops the trailing white space. */
  function TrimRight(s: Bytes): (r: Bytes)
    ensures |r| <= |s| && r == s[..|r|]
    ensures r == [] || !IsSpace(r[|r| - 1])
    ensures forall i :: |r| <= i < |s| ==> IsSpace(s[i])
    decreases |s|
  {
    if s != [] && IsSpace(s[|s| - 1]) then TrimRight(s[..|s| - 1]) else s
  }

  /** `r` occurs in `s` at `i`, and everything before and after it is
      white space. */
  predicate SpaceAround(s: Bytes, r: Bytes, i: nat) {
    && OccursAt(s, r, i)
    && (forall k :: 0 <= k < i ==> IsSpace(s[k]))
    && (forall k :: i + |r| <= k < |s| ==> IsSpace(s[k]))
  }

  /** bytes.TrimSpace: the slice without white space at either end. */
  function TrimSpace(s: Bytes): (r: Bytes)
    ensures Trimmed(r)
    ensures exists i: nat :: SpaceAround(s, r, i)
    ensures Trimmed(s) ==> r == s
  {
    TrimBothEnds(s);
    TrimRight(TrimLeft(s))
  }

  /** Trimming the front and then the back leaves a trimmed slice of `s`
      with only white space around it, and leaves an already trimmed slice
      alone. */
  lemma TrimBothEnds(s: Bytes)
    ensures Trimmed(TrimRight(TrimLeft(s)))
    ensures SpaceAround(s, TrimRight(TrimLeft(s)), |s| - |TrimLeft(s)|)
    ensures Trimmed(s) ==> TrimRight(TrimLeft(s)) == s
  {
    TrimBothEndsTrimmed(TrimLeft(s));
    TrimBothEndsOccurs(s, TrimLeft(s));
    if Trimmed(s) {
      TrimLeftTrimmed(s);
      TrimRightTrimmed(s);
    }
  }

  /** Dropping trailing space keeps a first rune that is not a space. */
  lemma TrimBothEndsTrimmed(left: Bytes)
    requires left == [] || !IsSpace(left[0])
    ensures Trimmed(TrimRight(left))
  {
    var r := TrimRight(left);
    if r != [] {
      assert r[0] == left[0];
    }
  }

  /** What is left after both trims sits where the front trim stopped. */
  lemma TrimBothEndsOccurs(s: Bytes, left: Bytes)
    requires |left| <= |s| && left == s[|s| - |left|..]
    requires forall k :: 0 <= k < |s| - |left| ==> IsSpace(s[k])
    ensures SpaceAround(s, TrimRight(left), |s| - |left|)
  {
    SpaceAroundPrefix(s, left, TrimRight(left));
  }

  /** A prefix of a suffix of `s`, with white space before the suffix and
      after the prefix, has only white space around it. */
  lemma SpaceAroundPrefix(s: Bytes, left: Bytes, r: Bytes)
    requires |left| <= |s| && left == s[|s| - |left|..]
    requires forall k :: 0 <= k < |s| - |left| ==> IsSpace(s[k])
    requires |r| <= |left| && r == left[..|r|]
    requires forall k :: |r| <= k < |left| ==> IsSpace(left[k])
    ensures SpaceAround(s, r, |s| - |left|)
  {
    var i := |s| - |left|;
    assert s[i..i + |r|] == r;
    forall k | i + |r| <= k < |s|
      ensures IsSpace(s[k])
    {
      assert s[k] == left[k - i];
    }
  }

  /** Nothing to drop at the front. */
  lemma TrimLeftTrimmed(s: Bytes)
    requires s == [] || !IsSpace(s[0])
    ensures TrimLeft(s) == s
  {
  }

  /** Nothing to drop at the back. */
  lemma TrimRightTrimmed(s: Bytes)
    requires s == [] || !IsSpace(s[|s| - 1])
    ensures TrimRight(s) == s
  {
  }

  /** Newlines around an already trimmed slice are trimmed away again. */
  lemma TrimSpaceBetweenNewlines(d: Bytes)
    requires Trimmed(d)
    ensures TrimSpace([NEWLINE] + d + [NEWLINE]) == d
  {
    var s := [NEWLINE] + d + [NEWLINE];
    assert s[1..] == d + [NEWLINE];
    if d == [] {
      assert TrimLeft([NEWLINE]) == [];
    } else {
      assert TrimLeft(d + [NEWLINE]) == d + [NEWLINE];
      assert (d + [NEWLINE])[..|d|] == d;
    }
  }
}
