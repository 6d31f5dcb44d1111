/** The extraction half of the todo manager (internal/managers/todo.go):
    priority-tagged checklist lines pulled out of a note body, and the
    filter, sort and concatenate step that merges them. */
module TodoRecords {
  import opened Text
  import opened Wrappers
  import opened Entities
  import opened Seqs

  /** The two line prefixes getMarkedTodos looks for, in the order it tries
      them. */
  const UNCHECKED: Bytes := "- [ ] !"
  const CHECKED: Bytes := "- [x] !"
  const PREFIXES: seq<Bytes> := [UNCHECKED, CHECKED]

  /** The metadata key formatTodoData compares with the target note id. */
  const ID_KEY: Bytes := "id"

  /** managers.todoRecord */
  datatype TodoRecord = TodoRecord(priority: int, data: Bytes)

  /** The length of the run of '!' that starts `s`. */
  function Bangs(s: Bytes): (n: nat)
    ensures n <= |s|
    ensures forall i :: 0 <= i < n ==> s[i] == '!'
    ensures n < |s| ==> s[n] != '!'
  {
    if s != [] && s[0] == '!' then 1 + Bangs(s[1..]) else 0
  }

  /** `n` exclamation marks. */
  function Repeat(n: nat): (s: Bytes)
    ensures |s| == n && forall i :: 0 <= i < n ==> s[i] == '!'
  {
    if n == 0 then [] else Repeat(n - 1) + ['!']
  }

  /** The record getMarkedTodos builds once `prefix` has been cut off a
      trimmed line, leaving `rest`: the priority is one more than the run of
      '!' that starts `rest`, the text is what follows the run (all of
      `rest` when nothing follows it), and the checkbox is the prefix
      without its last two bytes. */
  function RecordOf(prefix: Bytes, rest: Bytes, header: Bytes): (r: TodoRecord)
    requires |prefix| >= 2
  {
    var k := Bangs(rest);
    var text := if k < |rest| then rest[k..] else rest;
    TodoRecord(1 + k, prefix[..|prefix| - 2] + " **" + text + "** (" + header + ")\n")
  }

  /** A line of a note body is marked when, trimmed, it starts with one of
      the two prefixes. */
  predicate IsMarked(line: Bytes) {
    HasPrefix(TrimSpace(line), UNCHECKED) || HasPrefix(TrimSpace(line), CHECKED)
  }

  /** What getMarkedTodos makes of one line of the body: a record for a
      marked line, nothing for any other line. */
  function ParseLine(line: Bytes, header: Bytes): (r: Option<TodoRecord>)
    ensures r.Some? <==> IsMarked(line)
    ensures r.Some? ==> r.value.priority >= 1
  {
    var el := TrimSpace(line);
    if HasPrefix(el, UNCHECKED) then Some(RecordOf(UNCHECKED, el[|UNCHECKED|..], header))
    else if HasPrefix(el, CHECKED) then Some(RecordOf(CHECKED, el[|CHECKED|..], header))
    else None
  }

  /** The records of one line: none or one. */
  function LineRecords(header: Bytes, line: Bytes): seq<TodoRecord> {
    match ParseLine(line, header)
    case None => []
    case Some(r) => [r]
  }

  /** The records of a sequence of lines, in line order. */
  function Marked(header: Bytes, lines: seq<Bytes>): seq<TodoRecord> {
    FlatMap((line: Bytes) => LineRecords(header, line), lines)
  }

  /** What getMarkedTodos returns for a file: the records of the lines of its
      body, each naming the file's header. */
  function MarkedTodos(file: FileValue): seq<TodoRecord> {
    Marked(file.header, Split(file.data))
  }

  /** The number of marked lines. */
  function CountMarked(lines: seq<Bytes>): nat {
    if lines == [] then 0
    else (if IsMarked(lines[0]) then 1 else 0) + CountMarked(lines[1..])
  }

  /** Exactly one record per marked line, and every priority is at least 1. */
  lemma {:induction false} OneRecordPerMarkedLine(header: Bytes, lines: seq<Bytes>)
    ensures |Marked(header, lines)| == CountMarked(lines)
    ensures forall k :: 0 <= k < |Marked(header, lines)| ==> Marked(header, lines)[k].priority >= 1
    decreases |lines|
  {
    if lines != [] {
      OneRecordPerMarkedLine(header, lines[1..]);
      assert Marked(header, lines) == LineRecords(header, lines[0]) + Marked(header, lines[1..]);
    }
  }

  /** The records of a line appended at the end come after the records of
      the lines before it. */
  lemma MarkedSnoc(header: Bytes, lines: seq<Bytes>, line: Bytes)
    ensures Marked(header, lines + [line]) == Marked(header, lines) + LineRecords(header, line)
  {
    FlatMapSnoc((l: Bytes) => LineRecords(header, l), lines, line);
  }

  /** A trimmed line that starts with one of the prefixes is parsed with
      that prefix. */
  lemma ParseTrimmed(line: Bytes, prefix: Bytes, header: Bytes)
    requires prefix == UNCHECKED || prefix == CHECKED
    requires Trimmed(line) && HasPrefix(line, prefix)
    ensures ParseLine(line, header) == Some(RecordOf(prefix, line[7..], header))
  {
    assert TrimSpace(line) == line;
    assert HasPrefix(line, UNCHECKED) <==> prefix == UNCHECKED by {
      assert line[3] == prefix[3];
    }
  }

  /** The record of a run of n '!' followed by `text`. */
  lemma RecordOfRun(prefix: Bytes, n: nat, text: Bytes, header: Bytes)
    requires prefix == UNCHECKED || prefix == CHECKED
    requires text == [] || text[0] != '!'
    ensures RecordOf(prefix, Repeat(n) + text, header) ==
      TodoRecord(n + 1, prefix[..5] + " **" + (if text == [] then Repeat(n) else text) + "** (" + header + ")\n")
  {
    var rest := Repeat(n) + text;
    BangsOfRun(rest, n);
    assert rest[n..] == text;
    assert text == [] ==> rest == Repeat(n);
  }

  /** A line made of a prefix, n more '!' and a trimmed text that does not
      start with '!' gives a record of priority n + 1 whose text is exactly
      that text. */
  lemma ParseTaggedLine(prefix: Bytes, n: nat, text: Bytes, header: Bytes)
    requires prefix == UNCHECKED || prefix == CHECKED
    requires text != [] && text[0] != '!' && Trimmed(text)
    ensures ParseLine(prefix + Repeat(n) + text, header) ==
      Some(TodoRecord(n + 1, prefix[..5] + " **" + text + "** (" + header + ")\n"))
  {
    var line := prefix + Repeat(n) + text;
    TaggedLineShape(prefix, n, text);
    ParseTrimmed(line, prefix, header);
    RecordOfRun(prefix, n, text, header);
  }

  /** A prefix, a run of '!' and a trimmed text make a trimmed line that
      starts with the prefix. */
  lemma TaggedLineShape(prefix: Bytes, n: nat, text: Bytes)
    requires prefix == UNCHECKED || prefix == CHECKED
    requires Trimmed(text)
    ensures var line := prefix + Repeat(n) + text;
      Trimmed(line) && HasPrefix(line, prefix) && line[7..] == Repeat(n) + text
  {
    var line := prefix + Repeat(n) + text;
    assert line[0] == '-';
    assert line[|line| - 1] == if text == [] then '!' else text[|text| - 1];
    assert line[..7] == prefix;
  }

  /** When nothing but '!' follows the prefix the loop never cuts the line,
      so the record keeps all of the '!'. */
  lemma ParseBangsOnly(prefix: Bytes, n: nat, header: Bytes)
    requires prefix == UNCHECKED || prefix == CHECKED
    ensures ParseLine(prefix + Repeat(n), header) ==
      Some(TodoRecord(n + 1, prefix[..5] + " **" + Repeat(n) + "** (" + header + ")\n"))
  {
    var line := prefix + Repeat(n) + [];
    TaggedLineShape(prefix, n, []);
    ParseTrimmed(line, prefix, header);
    RecordOfRun(prefix, n, [], header);
  }

  /** A run of exactly n '!' at the start. */
  lemma {:induction false} BangsOfRun(s: Bytes, n: nat)
    requires n <= |s| && forall i :: 0 <= i < n ==> s[i] == '!'
    requires n < |s| ==> s[n] != '!'
    ensures Bangs(s) == n
    decreases n
  {
    if n > 0 {
      BangsOfRun(s[1..], n - 1);
    }
  }

  /** getMarkedTodos: scans the lines of the body; for each trimmed line
      tries the two prefixes in turn, counts the '!' run after the first one
      that matches and renders the record. */
  method GetMarkedTodos(file: FileValue) returns (to: seq<TodoRecord>)
    ensures to == MarkedTodos(file)
  {
    var parts := Split(file.data);
    to := [];
    var j := 0;
    while j < |parts|
      invariant 0 <= j <= |parts|
      invariant to == Marked(file.header, parts[..j])
    {
      var records := MarkLine(parts[j], file.header);
      assert to + records == Marked(file.header, parts[..j + 1]) by {
        MarkedSnoc(file.header, parts[..j], parts[j]);
        TakeSnoc(parts, j);
      }
      to := to + records;
      j := j + 1;
    }
    assert parts[..|parts|] == parts;
  }

  /** The body of getMarkedTodos's loop for one line: trims it, tries the two
      prefixes in turn, and for the first that matches counts the run of '!'
      after it and renders the record. */
  method MarkLine(line: Bytes, header: Bytes) returns (records: seq<TodoRecord>)
    ensures records == LineRecords(header, line)
  {
    var el := TrimSpace(line);
    records := [];
    var q := 0;
    while q < |PREFIXES|
      invariant 0 <= q <= |PREFIXES|
      invariant records == []
      invariant forall q' :: 0 <= q' < q ==> !HasPrefix(el, PREFIXES[q'])
    {
      var p := PREFIXES[q];
      if !HasPrefix(el, p) {
        q := q + 1;
        continue;
      }
      var priority, text := CountBangs(el[|p|..]);
      records := [TodoRecord(priority, p[..|p| - 2] + " **" + text + "** (" + header + ")\n")];
      RecordOfCounted(p, el[|p|..], header, priority, text);
      LineRecordsMatched(line, header, q);
      return;
    }
    LineRecordsUnmatched(line, header);
  }

  /** The loop of getMarkedTodos that counts the '!' after the prefix: the
      priority starts at 1 and grows by one per '!'; at the first other byte
      the text is cut to start there. */
  method CountBangs(rest: Bytes) returns (priority: int, text: Bytes)
    ensures priority == 1 + Bangs(rest)
    ensures text == if Bangs(rest) < |rest| then rest[Bangs(rest)..] else rest
  {
    text := rest;
    priority := 1;
    var i := 0;
    while i < |rest|
      invariant 0 <= i <= |rest|
      invariant priority == 1 + i
      invariant forall i' :: 0 <= i' < i ==> rest[i'] == '!'
      invariant text == rest
    {
      if rest[i] == '!' {
        priority := priority + 1;
        i := i + 1;
        continue;
      }
      text := rest[i..];
      break;
    }
    BangsOfRun(rest, i);
  }

  /** A line whose trimmed form starts with the q-th prefix and with none
      before it gives the record of that prefix. */
  lemma LineRecordsMatched(line: Bytes, header: Bytes, q: nat)
    requires q < |PREFIXES| && HasPrefix(TrimSpace(line), PREFIXES[q])
    requires forall q' :: 0 <= q' < q ==> !HasPrefix(TrimSpace(line), PREFIXES[q'])
    ensures LineRecords(header, line) ==
      [RecordOf(PREFIXES[q], TrimSpace(line)[|PREFIXES[q]|..], header)]
  {
    if q == 1 {
      assert !HasPrefix(TrimSpace(line), PREFIXES[0]);
    }
  }

  /** The record built from the counted priority and text is RecordOf. */
  lemma RecordOfCounted(prefix: Bytes, rest: Bytes, header: Bytes, priority: int, text: Bytes)
    requires |prefix| >= 2
    requires priority == 1 + Bangs(rest)
    requires text == if Bangs(rest) < |rest| then rest[Bangs(rest)..] else rest
    ensures RecordOf(prefix, rest, header) ==
      TodoRecord(priority, prefix[..|prefix| - 2] + " **" + text + "** (" + header + ")\n")
  {
  }

  /** A line whose trimmed form starts with neither prefix gives nothing. */
  lemma LineRecordsUnmatched(line: Bytes, header: Bytes)
    requires forall q' :: 0 <= q' < |PREFIXES| ==> !HasPrefix(TrimSpace(line), PREFIXES[q'])
    ensures LineRecords(header, line) == []
  {
    assert !HasPrefix(TrimSpace(line), PREFIXES[0]);
    assert !HasPrefix(TrimSpace(line), PREFIXES[1]);
  }

  /** The records formatTodoData takes from one file: none when its "id"
      metadata is the target note id. */
  function Contribution(noteID: string, f: FileValue): seq<TodoRecord> {
    if LookupMeta(f.meta, ID_KEY) == noteID then [] else MarkedTodos(f)
  }

  /** The records formatTodoData collects, file by file. */
  function Collected(noteID: string, files: seq<FileValue>): seq<TodoRecord> {
    FlatMap((f: FileValue) => Contribution(noteID, f), files)
  }

  /** Collecting from two lists of files is collecting from each. */
  lemma CollectedConcat(noteID: string, a: seq<FileValue>, b: seq<FileValue>)
    ensures Collected(noteID, a + b) == Collected(noteID, a) + Collected(noteID, b)
  {
    FlatMapConcat((f: FileValue) => Contribution(noteID, f), a, b);
  }

  /** A file whose "id" metadata is the target note id contributes nothing,
      wherever it stands. */
  lemma TargetContributesNothing(noteID: string, a: seq<FileValue>, f: FileValue, b: seq<FileValue>)
    requires LookupMeta(f.meta, ID_KEY) == noteID
    ensures Collected(noteID, a + [f] + b) == Collected(noteID, a + b)
  {
    CollectedConcat(noteID, a + [f], b);
    CollectedConcat(noteID, a, [f]);
    CollectedConcat(noteID, a, b);
    FlatMapOne((g: FileValue) => Contribution(noteID, g), f);
  }

  /** Every other file contributes its records, in file order. */
  lemma OtherFileContributes(noteID: string, a: seq<FileValue>, f: FileValue, b: seq<FileValue>)
    requires LookupMeta(f.meta, ID_KEY) != noteID
    ensures Collected(noteID, a + [f] + b) == Collected(noteID, a) + MarkedTodos(f) + Collected(noteID, b)
  {
    CollectedConcat(noteID, a + [f], b);
    CollectedConcat(noteID, a, [f]);
    FlatMapOne((g: FileValue) => Contribution(noteID, g), f);
  }

  /** Non-increasing priority. */
  predicate SortedByPriority(s: seq<TodoRecord>) {
    forall i, j :: 0 <= i < j < |s| ==> s[i].priority >= s[j].priority
  }

  /** A comparison as slices.SortFunc takes it: negative when the first
      record goes before the second, positive when it goes after, zero when
      either order will do. */
  type Comparison = (TodoRecord, TodoRecord) -> int

  /** What slices.SortFunc asks of its comparison, a strict weak ordering:
      the signs agree both ways round, and "does not go after" is
      transitive. */
  ghost predicate StrictWeakOrder(cmp: Comparison) {
    && (forall a, b :: cmp(a, b) < 0 <==> cmp(b, a) > 0)
    && (forall a, b, c :: cmp(a, b) <= 0 && cmp(b, c) <= 0 ==> cmp(a, c) <= 0)
  }

  /** Sorted under a comparison: no record goes after a later one. */
  predicate SortedBy(s: seq<TodoRecord>, cmp: Comparison) {
    forall i, j :: 0 <= i < j < |s| ==> cmp(s[i], s[j]) <= 0
  }

  /** The comparison formatTodoData passes to slices.SortFunc: the higher
      priority goes first. */
  function ByPriority(a: TodoRecord, b: TodoRecord): int {
    -(a.priority - b.priority)
  }

  /** The comparison is one slices.SortFunc accepts, and sorting by it is
      sorting by non-increasing priority. */
  lemma ByPriorityOrders(s: seq<TodoRecord>)
    ensures StrictWeakOrder(ByPriority)
    ensures SortedBy(s, ByPriority) <==> SortedByPriority(s)
  {
  }

  /** Inserts a record before the first one it does not go after. */
  function InsertBy(cmp: Comparison, r: TodoRecord, s: seq<TodoRecord>): (t: seq<TodoRecord>)
    ensures StrictWeakOrder(cmp) && SortedBy(s, cmp) ==> SortedBy(t, cmp)
    ensures multiset(t) == multiset(s) + multiset{r}
  {
    if s == [] || cmp(r, s[0]) <= 0 then
      InsertFront(cmp, r, s);
      [r] + s
    else
      var rest := InsertBy(cmp, r, s[1..]);
      InsertBehind(cmp, r, s, rest);
      [s[0]] + rest
  }

  /** A record that does not go after the first one goes in front. */
  lemma InsertFront(cmp: Comparison, r: TodoRecord, s: seq<TodoRecord>)
    requires s == [] || cmp(r, s[0]) <= 0
    ensures StrictWeakOrder(cmp) && SortedBy(s, cmp) ==> SortedBy([r] + s, cmp)
  {
    if StrictWeakOrder(cmp) && SortedBy(s, cmp) {
      forall k | 0 <= k < |s|
        ensures cmp(r, s[k]) <= 0
      {
        assert cmp(s[0], s[k]) <= 0 || k == 0;
      }
    }
  }

  /** A record that goes after the first one goes somewhere behind it. */
  lemma InsertBehind(cmp: Comparison, r: TodoRecord, s: seq<TodoRecord>, rest: seq<TodoRecord>)
    requires s != [] && cmp(r, s[0]) > 0
    requires StrictWeakOrder(cmp) && SortedBy(s[1..], cmp) ==> SortedBy(rest, cmp)
    requires multiset(rest) == multiset(s[1..]) + multiset{r}
    ensures StrictWeakOrder(cmp) && SortedBy(s, cmp) ==> SortedBy([s[0]] + rest, cmp)
    ensures multiset([s[0]] + rest) == multiset(s) + multiset{r}
  {
    assert s == [s[0]] + s[1..];
    if StrictWeakOrder(cmp) && SortedBy(s, cmp) {
      assert cmp(s[0], r) <= 0 && SortedBy(rest, cmp) && forall k :: 0 <= k < |s[1..]| ==> cmp(s[0], s[1..][k]) <= 0;
      SortedBehind(cmp, s[0], s[1..], r, rest);
    }
  }

  /** A record that goes before every record of `tail` and before `r` goes
      before every record of a permutation of `tail` and `r`. */
  lemma SortedBehind(cmp: Comparison, first: TodoRecord, tail: seq<TodoRecord>, r: TodoRecord, rest: seq<TodoRecord>)
    requires cmp(first, r) <= 0
    requires forall k :: 0 <= k < |tail| ==> cmp(first, tail[k]) <= 0
    requires SortedBy(rest, cmp) && multiset(rest) == multiset(tail) + multiset{r}
    ensures SortedBy([first] + rest, cmp)
  {
    forall k | 0 <= k < |rest|
      ensures cmp(first, rest[k]) <= 0
    {
      assert rest[k] in multiset(rest);
      if rest[k] != r {
        assert rest[k] in multiset(tail);
        var m :| 0 <= m < |tail| && tail[m] == rest[k];
      }
    }
  }

  /** A reference sort (insertion sort): a sorted permutation of its input
      for any comparison slices.SortFunc accepts. */
  function SortBy(cmp: Comparison, s: seq<TodoRecord>): (t: seq<TodoRecord>)
    ensures StrictWeakOrder(cmp) ==> SortedBy(t, cmp)
    ensures multiset(t) == multiset(s)
  {
    if s == [] then []
    else
      assert s == [s[0]] + s[1..];
      InsertBy(cmp, s[0], SortBy(cmp, s[1..]))
  }

  /** The routines of Go's standard library that formatTodoData and
      updateNote call: sha256.Sum256, behind hashBytes, and slices.SortFunc,
      which takes the comparison as an argument. Both are functions of their
      input; the model does not compute them. */
  datatype Library = Library(hash: Bytes -> seq<bv8>, sort: (seq<TodoRecord>, Comparison) -> seq<TodoRecord>)

  const HASH_LENGTH: nat := 32

  /** What the library promises: a SHA-256 digest is 32 bytes long, and
      slices.SortFunc, given a strict weak ordering, returns a permutation of
      its input in which no record goes after a later one (the order among
      records that compare equal being its own affair). */
  ghost predicate LibraryContract(lib: Library) {
    && (forall d :: |lib.hash(d)| == HASH_LENGTH)
    && (forall l, cmp :: StrictWeakOrder(cmp) ==>
          SortedBy(lib.sort(l, cmp), cmp) && multiset(lib.sort(l, cmp)) == multiset(l))
  }

  /** The contract can be met: a constant 32-byte digest and the insertion
      sort above. */
  lemma LibraryContractSatisfiable()
    ensures LibraryContract(Library(d => seq(HASH_LENGTH, _ => 0 as bv8), (l: seq<TodoRecord>, cmp: Comparison) => SortBy(cmp, l)))
  {
  }

  /** The rendered records, one after another. */
  function Concat(records: seq<TodoRecord>): Bytes {
    FlatMap((r: TodoRecord) => r.data, records)
  }

  /** What formatTodoData returns. */
  function TodoData(lib: Library, noteID: string, files: seq<FileValue>): Bytes {
    Concat(lib.sort(Collected(noteID, files), ByPriority))
  }

  /** The merged text is the concatenation of a permutation of the collected
      records in non-increasing priority. */
  lemma TodoDataIsSortedPermutation(lib: Library, noteID: string, files: seq<FileValue>)
    requires LibraryContract(lib)
    ensures exists s: seq<TodoRecord> ::
      && SortedByPriority(s)
      && multiset(s) == multiset(Collected(noteID, files))
      && TodoData(lib, noteID, files) == Concat(s)
  {
    var s := lib.sort(Collected(noteID, files), ByPriority);
    ByPriorityOrders(s);
    assert SortedBy(s, ByPriority) && multiset(s) == multiset(Collected(noteID, files));
  }

  /** formatTodoData: collects the records of every file but the target
      note, sorts them with the library sort and concatenates them. */
  method FormatTodoData(lib: Library, noteID: string, files: seq<FileValue>) returns (data: Bytes)
    ensures data == TodoData(lib, noteID, files)
  {
    var list := CollectRecords(noteID, files);
    list := lib.sort(list, ByPriority);
    data := ConcatRecords(list);
  }

  /** The first loop of formatTodoData: skips the file whose "id" metadata
      is the target note id and appends the marked todos of every other. */
  method CollectRecords(noteID: string, files: seq<FileValue>) returns (list: seq<TodoRecord>)
    ensures list == Collected(noteID, files)
  {
    list := [];
    var k := 0;
    while k < |files|
      invariant 0 <= k <= |files|
      invariant list == Collected(noteID, files[..k])
    {
      var el := files[k];
      CollectedStep(noteID, files, k);
      if LookupMeta(el.meta, ID_KEY) == noteID {
        k := k + 1;
        continue;
      }
      var tmp := GetMarkedTodos(el);
      if |tmp| == 0 {
        k := k + 1;
        continue;
      }
      list := list + tmp;
      k := k + 1;
    }
    assert files[..|files|] == files;
  }

  /** Collecting one more file adds its contribution. */
  lemma CollectedStep(noteID: string, files: seq<FileValue>, k: nat)
    requires k < |files|
    ensures Collected(noteID, files[..k + 1]) == Collected(noteID, files[..k]) + Contribution(noteID, files[k])
  {
    var done, f := files[..k], files[k];
    TakeSnoc(files, k);
    CollectedConcat(noteID, done, [f]);
    CollectedOne(noteID, f);
  }

  lemma CollectedOne(noteID: string, f: FileValue)
    ensures Collected(noteID, [f]) == Contribution(noteID, f)
  {
    FlatMapOne((g: FileValue) => Contribution(noteID, g), f);
  }

  /** The last loop of formatTodoData: appends the rendered records in
      order. */
  method ConcatRecords(list: seq<TodoRecord>) returns (data: Bytes)
    ensures data == Concat(list)
  {
    data := [];
    var i := 0;
    while i < |list|
      invariant 0 <= i <= |list|
      invariant data == Concat(list[..i])
    {
      FlatMapSnoc((r: TodoRecord) => r.data, list[..i], list[i]);
      TakeSnoc(list, i);
      data := data + list[i].data;
      i := i + 1;
    }
    assert list[..|list|] == list;
  }
}
