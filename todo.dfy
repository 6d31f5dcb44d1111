/** The todo manager (internal/managers/todo.go): one UpdateTodo run waits
    for foreign locks, takes its own, lists the notes, merges the marked
    todos of the target's children into the target note and releases the
    lock. The provider is the joplinProvider interface, seen through the
    answers it gives and the calls it receives. */
module Todo {
  import opened Text
  import opened Wrappers
  import opened Seqs
  import opened Entities
  import opened TodoRecords

  const MD_SUFFIX: string := ".md"
  const PARENT_ID_PREFIX: string := "parent_id: "
  const GENERATED_TRAILER: Bytes := "\n\nDO NOT EDIT\ngenerated at "
  /** How long UpdateTodo lets WaitForLockRealised wait. */
  const WAIT_SECONDS: nat := 30

  /** One call of the joplinProvider interface, as the provider receives it. */
  datatype Call =
    | WaitForLockRealised(seconds: nat)
    | AcquireLock(id: string)
    | ReleaseLock(id: string)
    | ListNames(prefix: Option<string>)
    | Get(name: string)
    | Put(file: FileValue)

  /** How the notes behind a provider answer: the listing, a fetch per
      name and a write per file. Fixed for a run, since nothing else writes
      to the store while it lasts. */
  datatype Notes = Notes(
    names: Result<seq<string>, Error>,
    get: string -> Result<FileValue, Error>,
    put: FileValue -> Option<Error>)

  /** The answers a provider gives: the three lock calls and the notes. */
  datatype Script = Script(wait: Option<Error>, acquire: Option<Error>, release: Option<Error>, notes: Notes)

  /** A joplinProvider: answers from its script and records every call. */
  class Provider {
    const script: Script
    var calls: seq<Call>

    constructor (script: Script)
      ensures this.script == script && calls == []
    {
      this.script := script;
      calls := [];
    }

    method WaitForLockRealised(seconds: nat) returns (err: Option<Error>)
      modifies this
      ensures err == script.wait && calls == old(calls) + [Call.WaitForLockRealised(seconds)]
    {
      calls := calls + [Call.WaitForLockRealised(seconds)];
      err := script.wait;
    }

    method AcquireLock(id: string) returns (err: Option<Error>)
      modifies this
      ensures err == script.acquire && calls == old(calls) + [Call.AcquireLock(id)]
    {
      calls := calls + [Call.AcquireLock(id)];
      err := script.acquire;
    }

    method ReleaseLock(id: string) returns (err: Option<Error>)
      modifies this
      ensures err == script.release && calls == old(calls) + [Call.ReleaseLock(id)]
    {
      calls := calls + [Call.ReleaseLock(id)];
      err := script.release;
    }

    method ListNames(prefix: Option<string>) returns (list: Result<seq<string>, Error>)
      modifies this
      ensures list == script.notes.names && calls == old(calls) + [Call.ListNames(prefix)]
    {
      calls := calls + [Call.ListNames(prefix)];
      list := script.notes.names;
    }

    method Get(name: string) returns (file: Result<FileValue, Error>)
      modifies this
      ensures file == script.notes.get(name) && calls == old(calls) + [Call.Get(name)]
    {
      calls := calls + [Call.Get(name)];
      file := script.notes.get(name);
    }

    method Put(file: FileValue) returns (err: Option<Error>)
      modifies this
      ensures err == script.notes.put(file) && calls == old(calls) + [Call.Put(file)]
    {
      calls := calls + [Call.Put(file)];
      err := script.notes.put(file);
    }
  }

  /** isChild: the raw bytes contain "parent_id: " followed by the parent id. */
  predicate IsChild(parentID: string, file: FileValue) {
    Contains(file.raw, PARENT_ID_PREFIX + parentID)
  }

  /** A note is a child exactly when "parent_id: <parent>" occurs somewhere
      in its raw bytes; a note with empty raw bytes never is. */
  lemma IsChildIff(parentID: string, file: FileValue)
    ensures IsChild(parentID, file) <==> exists i: nat :: OccursAt(file.raw, PARENT_ID_PREFIX + parentID, i)
    ensures file.raw == [] ==> !IsChild(parentID, file)
  {
    ContainsIff(file.raw, PARENT_ID_PREFIX + parentID);
    if file.raw == [] {
      EmptyContainsNothing(PARENT_ID_PREFIX + parentID);
    }
  }

  /** What listChildren has gathered so far. */
  datatype Children = Children(list: seq<FileValue>, note: FileValue)

  /** The calls a step of the engine makes, and its outcome. */
  datatype Listing = Listing(calls: seq<Call>, result: Result<Children, Error>)

  /** What listChildren does with a fetched ".md" file: the target's file,
      split, becomes the note; any other child, split, is appended to the
      list; other files are dropped. */
  function Gathered(target: string, parentID: string, name: string, file: FileValue, acc: Children): Children {
    if name == target then acc.(note := SplitOf(file))
    else if IsChild(parentID, file) then acc.(list := acc.list + [SplitOf(file)])
    else acc
  }

  /** The loop of listChildren over `names`, from the gathered `acc`: names
      without ".md" are skipped; every other name is fetched, and a fetch
      error ends the loop. */
  function ScanFrom(notes: Notes, target: string, parentID: string, names: seq<string>, acc: Children): Listing
    decreases |names|
  {
    if names == [] then Listing([], Success(acc))
    else if !HasSuffix(names[0], MD_SUFFIX) then ScanFrom(notes, target, parentID, names[1..], acc)
    else
      match notes.get(names[0])
      case Failure(e) => Listing([Call.Get(names[0])], Failure(Wrapped("get", e)))
      case Success(file) =>
        var rest := ScanFrom(notes, target, parentID, names[1..], Gathered(target, parentID, names[0], file, acc));
        Listing([Call.Get(names[0])] + rest.calls, rest.result)
  }

  /** One step of the loop, at position k. */
  lemma ScanStep(notes: Notes, target: string, parentID: string, names: seq<string>, k: nat, acc: Children)
    requires k < |names|
    ensures ScanFrom(notes, target, parentID, names[k..], acc) ==
      if !HasSuffix(names[k], MD_SUFFIX) then ScanFrom(notes, target, parentID, names[k + 1..], acc)
      else if notes.get(names[k]).Failure? then
        Listing([Call.Get(names[k])], Failure(Wrapped("get", notes.get(names[k]).error)))
      else
        var rest := ScanFrom(notes, target, parentID, names[k + 1..],
                             Gathered(target, parentID, names[k], notes.get(names[k]).value, acc));
        Listing([Call.Get(names[k])] + rest.calls, rest.result)
  {
    assert names[k..][1..] == names[k + 1..];
  }

  /** The loop has made the calls `done` of the whole scan `total`, and
      `rest` is what the scan still does. */
  ghost predicate Resumes(total: Listing, done: seq<Call>, rest: Listing) {
    total.calls == done + rest.calls && total.result == rest.result
  }

  /** A fetch moves one call from what remains to what has been done. */
  lemma ResumesAfterGet(total: Listing, done: seq<Call>, get: Call, rest: Listing)
    requires Resumes(total, done, Listing([get] + rest.calls, rest.result))
    ensures Resumes(total, done + [get], rest)
  {
    assert done + ([get] + rest.calls) == (done + [get]) + rest.calls;
  }

  /** The file name of the target note. */
  function TargetName(noteID: string): string {
    noteID + MD_SUFFIX
  }

  /** What listChildren does: one listing (with no prefix), then the loop;
      a listing error ends it at once. */
  function ListChildrenOf(notes: Notes, noteID: string, parentID: string): Listing {
    match notes.names
    case Failure(e) => Listing([Call.ListNames(None)], Failure(Wrapped("list", e)))
    case Success(names) =>
      var l := ScanFrom(notes, TargetName(noteID), parentID, names, Children([], ZERO_FILE));
      Listing([Call.ListNames(None)] + l.calls, l.result)
  }

  /** The fetches listChildren makes when none fails: one per name ending
      in ".md", in listing order. */
  function FetchCalls(names: seq<string>): (calls: seq<Call>)
    ensures forall k :: 0 <= k < |calls| ==> calls[k].Get? && HasSuffix(calls[k].name, MD_SUFFIX) && calls[k].name in names
  {
    if names == [] then []
    else (if HasSuffix(names[0], MD_SUFFIX) then [Call.Get(names[0])] else []) + FetchCalls(names[1..])
  }

  /** Every ".md" name can be fetched. */
  ghost predicate AllFetched(notes: Notes, names: seq<string>) {
    forall k :: 0 <= k < |names| && HasSuffix(names[k], MD_SUFFIX) ==> notes.get(names[k]).Success?
  }

  /** The child files of one name: the split file when the name ends in
      ".md", is not the target and names a child. */
  function ChildOf(notes: Notes, target: string, parentID: string, name: string): seq<FileValue> {
    if HasSuffix(name, MD_SUFFIX) && name != target then
      match notes.get(name)
      case Success(file) => if IsChild(parentID, file) then [SplitOf(file)] else []
      case Failure(_) => []
    else []
  }

  /** The child files of all names, in listing order. */
  function ChildFiles(notes: Notes, target: string, parentID: string, names: seq<string>): seq<FileValue> {
    FlatMap((n: string) => ChildOf(notes, target, parentID, n), names)
  }

  lemma ChildFilesCons(notes: Notes, target: string, parentID: string, names: seq<string>)
    requires names != []
    ensures ChildFiles(notes, target, parentID, names) ==
      ChildOf(notes, target, parentID, names[0]) + ChildFiles(notes, target, parentID, names[1..])
  {
  }

  /** The note once the names have been scanned: the split target file when
      the target is listed, else what it was. */
  function NoteAfter(notes: Notes, target: string, names: seq<string>, note: FileValue): FileValue {
    if target in names && notes.get(target).Success? then SplitOf(notes.get(target).value) else note
  }

  /** The loop makes no call but fetches. */
  lemma {:induction false} ScanOnlyFetches(notes: Notes, target: string, parentID: string, names: seq<string>, acc: Children)
    ensures forall k :: 0 <= k < |ScanFrom(notes, target, parentID, names, acc).calls| ==>
      ScanFrom(notes, target, parentID, names, acc).calls[k].Get?
    decreases |names|
  {
    if names != [] && HasSuffix(names[0], MD_SUFFIX) && notes.get(names[0]).Success? {
      var next := Gathered(target, parentID, names[0], notes.get(names[0]).value, acc);
      ScanOnlyFetches(notes, target, parentID, names[1..], next);
      var rest := ScanFrom(notes, target, parentID, names[1..], next);
      var l := ScanFrom(notes, target, parentID, names, acc);
      assert l.calls == [Call.Get(names[0])] + rest.calls;
      forall k | 0 <= k < |l.calls|
        ensures l.calls[k].Get?
      {
        if k > 0 {
          assert l.calls[k] == rest.calls[k - 1];
        }
      }
    } else if names != [] && !HasSuffix(names[0], MD_SUFFIX) {
      ScanOnlyFetches(notes, target, parentID, names[1..], acc);
    }
  }

  /** The loop fails exactly when one of the fetches fails. */
  lemma {:induction false} ScanFailsIff(notes: Notes, target: string, parentID: string, names: seq<string>, acc: Children)
    ensures ScanFrom(notes, target, parentID, names, acc).result.Success? <==> AllFetched(notes, names)
    decreases |names|
  {
    if names != [] {
      AllFetchedCons(notes, names);
      if !HasSuffix(names[0], MD_SUFFIX) {
        ScanFailsIff(notes, target, parentID, names[1..], acc);
      } else if notes.get(names[0]).Success? {
        ScanFailsIff(notes, target, parentID, names[1..], Gathered(target, parentID, names[0], notes.get(names[0]).value, acc));
      }
    }
  }

  /** When every fetch succeeds, the loop fetches the ".md" names in order
      and gathers exactly the child files and the target note. */
  lemma {:induction false} ScanMeetsReference(notes: Notes, target: string, parentID: string, names: seq<string>, acc: Children)
    requires HasSuffix(target, MD_SUFFIX)
    requires AllFetched(notes, names)
    ensures ScanFrom(notes, target, parentID, names, acc) ==
      Listing(FetchCalls(names), Success(Children(acc.list + ChildFiles(notes, target, parentID, names),
                                                  NoteAfter(notes, target, names, acc.note))))
    decreases |names|
  {
    if names != [] {
      ChildFilesCons(notes, target, parentID, names);
      AllFetchedCons(notes, names);
      if !HasSuffix(names[0], MD_SUFFIX) {
        ScanMeetsReference(notes, target, parentID, names[1..], acc);
        assert FetchCalls(names) == FetchCalls(names[1..]);
        assert ChildOf(notes, target, parentID, names[0]) == [];
        assert ChildFiles(notes, target, parentID, names) == ChildFiles(notes, target, parentID, names[1..]);
        assert ScanFrom(notes, target, parentID, names, acc) == ScanFrom(notes, target, parentID, names[1..], acc);
        assert names[0] != target;
        assert NoteAfter(notes, target, names, acc.note) == NoteAfter(notes, target, names[1..], acc.note);
      } else {
        var next := Gathered(target, parentID, names[0], notes.get(names[0]).value, acc);
        ScanMeetsReference(notes, target, parentID, names[1..], next);
        GatheredMeetsReference(notes, target, parentID, names, acc);
        assert FetchCalls(names) == [Call.Get(names[0])] + FetchCalls(names[1..]);
        assert next.list + ChildFiles(notes, target, parentID, names[1..])
            == acc.list + ChildFiles(notes, target, parentID, names);
        assert ScanFrom(notes, target, parentID, names, acc) ==
          Listing([Call.Get(names[0])] + FetchCalls(names[1..]),
                  Success(Children(next.list + ChildFiles(notes, target, parentID, names[1..]),
                                   NoteAfter(notes, target, names[1..], next.note))));
      }
    } else {
      assert ChildFiles(notes, target, parentID, names) == [];
      assert acc.list + [] == acc.list;
    }
  }

  /** One fetched ".md" name adds its child files and, when it is the
      target, settles the note. */
  lemma GatheredMeetsReference(notes: Notes, target: string, parentID: string, names: seq<string>, acc: Children)
    requires names != [] && HasSuffix(names[0], MD_SUFFIX) && notes.get(names[0]).Success?
    ensures var next := Gathered(target, parentID, names[0], notes.get(names[0]).value, acc);
      && next.list == acc.list + ChildOf(notes, target, parentID, names[0])
      && NoteAfter(notes, target, names[1..], next.note) == NoteAfter(notes, target, names, acc.note)
  {
  }

  lemma AllFetchedCons(notes: Notes, names: seq<string>)
    requires names != []
    ensures AllFetched(notes, names) <==>
      (HasSuffix(names[0], MD_SUFFIX) ==> notes.get(names[0]).Success?) && AllFetched(notes, names[1..])
  {
    if AllFetched(notes, names[1..]) && (HasSuffix(names[0], MD_SUFFIX) ==> notes.get(names[0]).Success?) {
      forall k | 0 <= k < |names| && HasSuffix(names[k], MD_SUFFIX)
        ensures notes.get(names[k]).Success?
      {
        if k > 0 {
          assert names[k] == names[1..][k - 1];
        }
      }
    }
  }

  /** The target file name ends in ".md", and cutting ".md" gives the id. */
  lemma TargetNameIsMd(noteID: string)
    ensures HasSuffix(TargetName(noteID), MD_SUFFIX)
    ensures TrimSuffix(TargetName(noteID), MD_SUFFIX) == noteID
  {
    TrimSuffixOfAppended(noteID, MD_SUFFIX);
  }

  /** listChildren lists once and then fetches the ".md" names in order. It
      succeeds exactly when the listing and every fetch succeed, and then
      returns the child files in listing order and the target note, which
      is the zero File when the target is not listed. */
  lemma ListChildrenMeetsReference(notes: Notes, noteID: string, parentID: string)
    ensures var l := ListChildrenOf(notes, noteID, parentID);
      && |l.calls| >= 1 && l.calls[0] == Call.ListNames(None)
      && (forall k :: 1 <= k < |l.calls| ==> l.calls[k].Get?)
      && (l.result.Success? <==> notes.names.Success? && AllFetched(notes, notes.names.value))
      && (l.result.Success? ==>
            && l.calls == [Call.ListNames(None)] + FetchCalls(notes.names.value)
            && l.result.value.list == ChildFiles(notes, TargetName(noteID), parentID, notes.names.value)
            && l.result.value.note == NoteAfter(notes, TargetName(noteID), notes.names.value, ZERO_FILE))
  {
    TargetNameIsMd(noteID);
    if notes.names.Success? {
      var acc := Children([], ZERO_FILE);
      ScanOnlyFetches(notes, TargetName(noteID), parentID, notes.names.value, acc);
      ScanFailsIff(notes, TargetName(noteID), parentID, notes.names.value, acc);
      if AllFetched(notes, notes.names.value) {
        ScanMeetsReference(notes, TargetName(noteID), parentID, notes.names.value, acc);
      }
      var l := ScanFrom(notes, TargetName(noteID), parentID, notes.names.value, acc);
      assert forall k :: 1 <= k < 1 + |l.calls| ==> ([Call.ListNames(None)] + l.calls)[k] == l.calls[k - 1];
    }
  }

  /** The target note never counts as a child, even when it names the
      parent. */
  lemma TargetIsNoChild(notes: Notes, noteID: string, parentID: string)
    ensures ChildOf(notes, TargetName(noteID), parentID, TargetName(noteID)) == []
  {
  }

  /** The outcome of updateNote or of a whole run: the calls made, the hash
      kept afterwards and the error returned. */
  datatype Outcome = Outcome(calls: seq<Call>, hash: seq<bv8>, err: Option<Error>)

  /** What updateNote does: nothing when the hash of the merged text is the
      one kept from the last write; otherwise the text plus the generated
      trailer goes into the note with SetData and the note is put, and only
      once both succeed is the new hash kept. `generatedAt` and `stamp` are
      the two clock readings (the trailer's and SetData's). */
  function UpdateNoteOf(notes: Notes, lib: Library, prev: seq<bv8>, note: FileValue, data: Bytes,
                        generatedAt: Bytes, stamp: Bytes): Outcome
  {
    var key := lib.hash(data);
    if key == prev then Outcome([], prev, None)
    else
      var (file, e) := SetDataOf(note, data + GENERATED_TRAILER + generatedAt, stamp);
      if e.Some? then Outcome([], prev, Some(Wrapped("setData", e.value)))
      else
        match notes.put(file)
        case Some(pe) => Outcome([Call.Put(file)], prev, Some(Wrapped("put", pe)))
        case None => Outcome([Call.Put(file)], key, None)
  }

  /** The merged text of a run whose listing succeeded. */
  function RunData(notes: Notes, lib: Library, noteID: string, parentID: string): Option<Bytes> {
    var l := ListChildrenOf(notes, noteID, parentID);
    if l.result.Success? then Some(TodoData(lib, noteID, l.result.value.list)) else None
  }

  /** The part of UpdateTodo that runs under the lock. */
  function LockedSection(notes: Notes, lib: Library, noteID: string, parentID: string, prev: seq<bv8>,
                         generatedAt: Bytes, stamp: Bytes): Outcome
  {
    var l := ListChildrenOf(notes, noteID, parentID);
    match l.result
    case Failure(e) => Outcome(l.calls, prev, Some(Wrapped("listMDFiles", e)))
    case Success(c) =>
      var u := UpdateNoteOf(notes, lib, prev, c.note, TodoData(lib, noteID, c.list), generatedAt, stamp);
      Outcome(l.calls + u.calls, u.hash, if u.err.Some? then Some(Wrapped("updateNote", u.err.value)) else None)
  }

  /** What UpdateTodo does: wait, acquire, the locked section, and a release
      whose error is only logged. */
  function CycleOf(script: Script, lib: Library, noteID: string, parentID: string, appID: string,
                   prev: seq<bv8>, generatedAt: Bytes, stamp: Bytes): Outcome
  {
    if script.wait.Some? then
      Outcome([Call.WaitForLockRealised(WAIT_SECONDS)], prev, Some(Wrapped("waitForLockRealised", script.wait.value)))
    else if script.acquire.Some? then
      Outcome([Call.WaitForLockRealised(WAIT_SECONDS), Call.AcquireLock(appID)], prev,
              Some(Wrapped("acquireLock", script.acquire.value)))
    else
      var s := LockedSection(script.notes, lib, noteID, parentID, prev, generatedAt, stamp);
      Outcome([Call.WaitForLockRealised(WAIT_SECONDS), Call.AcquireLock(appID)] + s.calls + [Call.ReleaseLock(appID)],
              s.hash, s.err)
  }

  /** The calls of a run, appended to what was recorded before it. */
  lemma CallsAround(before: seq<Call>, locking: seq<Call>, section: seq<Call>, release: Call, after: seq<Call>)
    requires after == before + locking + section + [release]
    ensures after == before + (locking + section + [release])
  {
  }

  /** A call that reads or writes notes. */
  predicate IsNoteCall(c: Call) {
    c.ListNames? || c.Get? || c.Put?
  }

  /** The locked section makes only note calls. */
  lemma LockedSectionMakesNoteCalls(notes: Notes, lib: Library, noteID: string, parentID: string, prev: seq<bv8>,
                                    generatedAt: Bytes, stamp: Bytes)
    ensures var s := LockedSection(notes, lib, noteID, parentID, prev, generatedAt, stamp);
      forall k :: 0 <= k < |s.calls| ==> IsNoteCall(s.calls[k])
  {
    ListChildrenMeetsReference(notes, noteID, parentID);
  }

  /** UpdateTodo always waits first. When the wait or the acquire fails it
      stops there: no note call, no release, the hash kept. Once the lock is
      acquired, every note call happens under it and the lock is released
      exactly once, as the last call. The release's own error changes
      nothing. */
  lemma LockDiscipline(script: Script, lib: Library, noteID: string, parentID: string, appID: string,
                       prev: seq<bv8>, generatedAt: Bytes, stamp: Bytes)
    ensures var o := CycleOf(script, lib, noteID, parentID, appID, prev, generatedAt, stamp);
      && |o.calls| >= 1 && o.calls[0] == Call.WaitForLockRealised(WAIT_SECONDS)
      && (script.wait.Some? ==> o.calls == [Call.WaitForLockRealised(WAIT_SECONDS)] && o.err.Some? && o.hash == prev)
      && (script.wait.None? && script.acquire.Some? ==>
            o.calls == [Call.WaitForLockRealised(WAIT_SECONDS), Call.AcquireLock(appID)] && o.err.Some? && o.hash == prev)
      && (script.wait.None? && script.acquire.None? ==>
            && |o.calls| >= 3
            && o.calls[1] == Call.AcquireLock(appID)
            && o.calls[|o.calls| - 1] == Call.ReleaseLock(appID)
            && (forall k :: 2 <= k < |o.calls| - 1 ==> IsNoteCall(o.calls[k])))
      && (forall r :: CycleOf(script.(release := r), lib, noteID, parentID, appID, prev, generatedAt, stamp) == o)
  {
    if script.wait.None? && script.acquire.None? {
      LockedSectionMakesNoteCalls(script.notes, lib, noteID, parentID, prev, generatedAt, stamp);
      var s := LockedSection(script.notes, lib, noteID, parentID, prev, generatedAt, stamp);
      var o := CycleOf(script, lib, noteID, parentID, appID, prev, generatedAt, stamp);
      assert forall k :: 2 <= k < |o.calls| - 1 ==> o.calls[k] == s.calls[k - 2];
    }
  }

  /** A run that fails keeps the hash; a run that succeeds keeps the hash of
      the merged text it computed, whether it wrote or not. */
  lemma RunKeepsHashOfWrittenData(script: Script, lib: Library, noteID: string, parentID: string, appID: string,
                                  prev: seq<bv8>, generatedAt: Bytes, stamp: Bytes)
    ensures var o := CycleOf(script, lib, noteID, parentID, appID, prev, generatedAt, stamp);
      && (o.err.Some? ==> o.hash == prev)
      && (o.err.None? ==>
            && script.wait.None? && script.acquire.None?
            && RunData(script.notes, lib, noteID, parentID).Some?
            && o.hash == lib.hash(RunData(script.notes, lib, noteID, parentID).value))
  {
  }

  /** Running again with the hash a successful run kept writes nothing and
      succeeds, whatever the clock says, as long as the second run gets the
      lock, the listing is the same and every note but the target reads as
      before. The target itself may read differently (the first run's write
      changed it), as long as it can be fetched. */
  lemma RepeatedRunWritesNothing(script: Script, again: Script, lib: Library, noteID: string, parentID: string,
                                 appID: string, prev: seq<bv8>, generatedAt: Bytes, stamp: Bytes,
                                 generatedAt2: Bytes, stamp2: Bytes)
    requires CycleOf(script, lib, noteID, parentID, appID, prev, generatedAt, stamp).err.None?
    requires again.wait.None? && again.acquire.None?
    requires again.notes.names == script.notes.names
    requires forall n :: n != TargetName(noteID) ==> again.notes.get(n) == script.notes.get(n)
    requires again.notes.get(TargetName(noteID)).Success?
    ensures var h := CycleOf(script, lib, noteID, parentID, appID, prev, generatedAt, stamp).hash;
      var o := CycleOf(again, lib, noteID, parentID, appID, h, generatedAt2, stamp2);
      && o.err.None? && o.hash == h
      && (forall k :: 0 <= k < |o.calls| ==> !o.calls[k].Put?)
  {
    var target := TargetName(noteID);
    RunKeepsHashOfWrittenData(script, lib, noteID, parentID, appID, prev, generatedAt, stamp);
    ListChildrenMeetsReference(script.notes, noteID, parentID);
    ListChildrenMeetsReference(again.notes, noteID, parentID);
    var names := script.notes.names.value;
    forall k | 0 <= k < |names| && HasSuffix(names[k], MD_SUFFIX)
      ensures again.notes.get(names[k]).Success?
    {
      if names[k] != target {
        assert script.notes.get(names[k]).Success?;
      }
    }
    ChildFilesIgnoreTarget(script.notes, again.notes, target, parentID, names);
    assert RunData(again.notes, lib, noteID, parentID) == RunData(script.notes, lib, noteID, parentID);
    var h := CycleOf(script, lib, noteID, parentID, appID, prev, generatedAt, stamp).hash;
    var o := CycleOf(again, lib, noteID, parentID, appID, h, generatedAt2, stamp2);
    var l := ListChildrenOf(again.notes, noteID, parentID);
    assert o.calls == [Call.WaitForLockRealised(WAIT_SECONDS), Call.AcquireLock(appID)] + l.calls + [Call.ReleaseLock(appID)];
  }

  /** The child files do not depend on how the target reads. */
  lemma {:induction false} ChildFilesIgnoreTarget(notes: Notes, other: Notes, target: string, parentID: string,
                                                  names: seq<string>)
    requires forall n :: n != target ==> other.get(n) == notes.get(n)
    ensures ChildFiles(other, target, parentID, names) == ChildFiles(notes, target, parentID, names)
    decreases |names|
  {
    if names != [] {
      ChildFilesCons(notes, target, parentID, names);
      ChildFilesCons(other, target, parentID, names);
      ChildFilesIgnoreTarget(notes, other, target, parentID, names[1..]);
      assert ChildOf(other, target, parentID, names[0]) == ChildOf(notes, target, parentID, names[0]);
    } else {
      assert ChildFiles(other, target, parentID, names) == [] == ChildFiles(notes, target, parentID, names);
    }
  }

  /** The first run of a fresh Todo (no hash kept yet) writes once it gets
      through the lock, the listing and SetData: the note it puts carries
      the merged text followed by the generated trailer. */
  lemma FirstRunWrites(script: Script, lib: Library, noteID: string, parentID: string, appID: string,
                       generatedAt: Bytes, stamp: Bytes)
    requires LibraryContract(lib)
    requires script.wait.None? && script.acquire.None?
    requires ListChildrenOf(script.notes, noteID, parentID).result.Success?
    ensures var c := ListChildrenOf(script.notes, noteID, parentID).result.value;
      var data := TodoData(lib, noteID, c.list);
      var (file, e) := SetDataOf(c.note, data + GENERATED_TRAILER + generatedAt, stamp);
      var o := CycleOf(script, lib, noteID, parentID, appID, [], generatedAt, stamp);
      && (e.None? ==> Call.Put(file) in o.calls && file.data == data + GENERATED_TRAILER + generatedAt)
      && (e.Some? ==> o.err.Some?)
  {
    var c := ListChildrenOf(script.notes, noteID, parentID).result.value;
    var data := TodoData(lib, noteID, c.list);
    assert |lib.hash(data)| == HASH_LENGTH;
    SetDataRefreshesTimestamps(c.note, data + GENERATED_TRAILER + generatedAt, stamp);
  }

  /** When the target note is not listed, the zero File is what gets
      written: no provider, no name, only the new text. */
  lemma MissingTargetWritesZeroFile(notes: Notes, lib: Library, prev: seq<bv8>,
                                    data: Bytes, generatedAt: Bytes, stamp: Bytes)
    requires lib.hash(data) != prev
    ensures var o := UpdateNoteOf(notes, lib, prev, ZERO_FILE, data, generatedAt, stamp);
      o.calls == [Call.Put(ZERO_FILE.(data := data + GENERATED_TRAILER + generatedAt))]
  {
  }

  /** managers.Todo: the identifiers it works with, its provider, the
      library routines it calls, and the hash of the last text it wrote. */
  class Todo {
    const noteID: string
    const parentID: string
    const appID: string
    const provider: Provider
    const lib: Library
    var previousDataHash: seq<bv8>

    /** NewTodo: no hash kept yet. */
    constructor NewTodo(provider: Provider, appID: string, noteID: string, parentID: string, lib: Library)
      ensures this.provider == provider && this.appID == appID
      ensures this.noteID == noteID && this.parentID == parentID && this.lib == lib
      ensures previousDataHash == []
    {
      this.provider := provider;
      this.appID := appID;
      this.noteID := noteID;
      this.parentID := parentID;
      this.lib := lib;
      previousDataHash := [];
    }

    /** UpdateTodo: one run against the provider. */
    method UpdateTodo(generatedAt: Bytes, stamp: Bytes) returns (err: Option<Error>)
      modifies this, provider
      ensures var o := CycleOf(provider.script, lib, noteID, parentID, appID, old(previousDataHash), generatedAt, stamp);
        provider.calls == old(provider.calls) + o.calls && previousDataHash == o.hash && err == o.err
    {
      ghost var before := provider.calls;
      var e := provider.WaitForLockRealised(WAIT_SECONDS);
      if e.Some? {
        return Some(Wrapped("waitForLockRealised", e.value));
      }
      e := provider.AcquireLock(appID);
      if e.Some? {
        return Some(Wrapped("acquireLock", e.value));
      }
      ghost var s := LockedSection(provider.script.notes, lib, noteID, parentID, previousDataHash, generatedAt, stamp);
      err := Locked(generatedAt, stamp);
      // The deferred release: its error is only logged.
      var _ := provider.ReleaseLock(appID);
      CallsAround(before, [Call.WaitForLockRealised(WAIT_SECONDS), Call.AcquireLock(appID)], s.calls,
                  Call.ReleaseLock(appID), provider.calls);
    }

    /** The part of UpdateTodo that runs under the lock: list the children,
        merge their records and update the note. */
    method Locked(generatedAt: Bytes, stamp: Bytes) returns (err: Option<Error>)
      modifies this, provider
      ensures var s := LockedSection(provider.script.notes, lib, noteID, parentID, old(previousDataHash), generatedAt, stamp);
        provider.calls == old(provider.calls) + s.calls && previousDataHash == s.hash && err == s.err
    {
      var children, note, listErr := ListChildren();
      if listErr.Some? {
        err := Some(Wrapped("listMDFiles", listErr.value));
      } else {
        var data := FormatTodoData(lib, noteID, children);
        var updateErr := UpdateNote(note, data, generatedAt, stamp);
        err := if updateErr.Some? then Some(Wrapped("updateNote", updateErr.value)) else None;
      }
    }

    /** listChildren */
    method ListChildren() returns (list: seq<FileValue>, note: FileValue, err: Option<Error>)
      modifies provider
      ensures var l := ListChildrenOf(provider.script.notes, noteID, parentID);
        && provider.calls == old(provider.calls) + l.calls
        && (l.result.Success? ==> err.None? && list == l.result.value.list && note == l.result.value.note)
        && (l.result.Failure? ==> err == Some(l.result.error) && list == [] && note == ZERO_FILE)
    {
      var from := provider.ListNames(None);
      if from.Failure? {
        return [], ZERO_FILE, Some(Wrapped("list", from.error));
      }
      list, note, err := Scan(from.value);
    }

    /** The loop of listChildren over the listed names. */
    method Scan(names: seq<string>) returns (list: seq<FileValue>, note: FileValue, err: Option<Error>)
      modifies provider
      ensures var l := ScanFrom(provider.script.notes, TargetName(noteID), parentID, names, Children([], ZERO_FILE));
        && provider.calls == old(provider.calls) + l.calls
        && (l.result.Success? ==> err.None? && list == l.result.value.list && note == l.result.value.note)
        && (l.result.Failure? ==> err == Some(l.result.error) && list == [] && note == ZERO_FILE)
    {
      var target := TargetName(noteID);
      ghost var notes := provider.script.notes;
      ghost var start := provider.calls;
      ghost var total := ScanFrom(notes, target, parentID, names, Children([], ZERO_FILE));
      ghost var done: seq<Call> := [];
      list, note, err := [], ZERO_FILE, None;
      var k := 0;
      assert names[0..] == names;
      while k < |names|
        invariant 0 <= k <= |names|
        invariant provider.calls == start + done
        invariant Resumes(total, done, ScanFrom(notes, target, parentID, names[k..], Children(list, note)))
      {
        var name := names[k];
        ScanStep(notes, target, parentID, names, k, Children(list, note));
        if HasSuffix(name, MD_SUFFIX) {
          var file := provider.Get(name);
          if file.Failure? {
            ghost var failed := Listing([], Failure(Wrapped("get", file.error)));
            assert [Call.Get(name)] + failed.calls == [Call.Get(name)];
            ResumesAfterGet(total, done, Call.Get(name), failed);
            return [], ZERO_FILE, Some(Wrapped("get", file.error));
          }
          ghost var rest := ScanFrom(notes, target, parentID, names[k + 1..],
                                     Gathered(target, parentID, name, file.value, Children(list, note)));
          ResumesAfterGet(total, done, Call.Get(name), rest);
          done := done + [Call.Get(name)];
          var next := Gather(name, file.value, Children(list, note));
          list, note := next.list, next.note;
        }
        k := k + 1;
      }
    }

    /** The body of listChildren's loop for a fetched ".md" file. */
    method Gather(name: string, file: FileValue, acc: Children) returns (next: Children)
      ensures next == Gathered(TargetName(noteID), parentID, name, file, acc)
    {
      var f := new File(file);
      if name == noteID + MD_SUFFIX {
        f.SplitRaw();
        return acc.(note := f.Value());
      }
      if !IsChild(parentID, file) {
        return acc;
      }
      f.SplitRaw();
      return acc.(list := acc.list + [f.Value()]);
    }

    /** updateNote */
    method UpdateNote(file: FileValue, data: Bytes, generatedAt: Bytes, stamp: Bytes) returns (err: Option<Error>)
      modifies this, provider
      ensures var u := UpdateNoteOf(provider.script.notes, lib, old(previousDataHash), file, data, generatedAt, stamp);
        provider.calls == old(provider.calls) + u.calls && previousDataHash == u.hash && err == u.err
    {
      var key := lib.hash(data);
      if previousDataHash == key {
        return None;
      }
      var f := new File(file);
      var setErr := f.SetData(data + GENERATED_TRAILER + generatedAt, stamp);
      if setErr.Some? {
        return Some(Wrapped("setData", setErr.value));
      }
      var putErr := provider.Put(f.Value());
      if putErr.Some? {
        return Some(Wrapped("put", putErr.value));
      }
      previousDataHash := key;
      return None;
    }
  }
}
