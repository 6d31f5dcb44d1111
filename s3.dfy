/** The S3 provider (joplin_provider/s3.go) over an object store that
    stands for the s3client package: a bucket of keys in the order
    ListObjectsV2 returns them, a page size, a schedule of failing requests
    and a log of the requests sent. */
module S3Adapter {
  import opened Text
  import opened Wrappers
  import opened Entities
  import opened Seqs

  /** The prefix WaitForLockRealised polls. */
  const LOCKS_PREFIX: string := "locks/"
  const LOCK_NAME_PREFIX: string := "locks/2_1_"
  const LOCK_NAME_SUFFIX: string := ".json"

  /** The order in which the store lists keys: lexicographic on runes,
      which for UTF-8 is the byte order S3 uses. */
  predicate Less(a: string, b: string)
    decreases |a|
  {
    if a == [] then b != []
    else b != [] && (a[0] < b[0] || (a[0] == b[0] && Less(a[1..], b[1..])))
  }

  lemma {:induction false} LessIrreflexive(a: string)
    ensures !Less(a, a)
    decreases |a|
  {
    if a != [] {
      LessIrreflexive(a[1..]);
    }
  }

  lemma {:induction false} LessTransitive(a: string, b: string, c: string)
    requires Less(a, b) && Less(b, c)
    ensures Less(a, c)
    decreases |a|
  {
    if a != [] && a[0] == b[0] && b[0] == c[0] {
      LessTransitive(a[1..], b[1..], c[1..]);
    }
  }

  lemma {:induction false} LessTotal(a: string, b: string)
    requires a != b
    ensures Less(a, b) || Less(b, a)
    decreases |a|
  {
    if a != [] && b != [] && a[0] == b[0] {
      assert a == [a[0]] + a[1..] && b == [b[0]] + b[1..];
      LessTotal(a[1..], b[1..]);
    }
  }

  lemma LessAsymmetric(a: string, b: string)
    requires Less(a, b)
    ensures !Less(b, a)
  {
    if Less(b, a) {
      LessTransitive(a, b, a);
      LessIrreflexive(a);
    }
  }

  /** Every key is before every later key. */
  predicate StrictlySorted(s: seq<string>) {
    forall i, j :: 0 <= i < j < |s| ==> Less(s[i], s[j])
  }

  /** The keys satisfying `p`, in their order. */
  function Filter(p: string -> bool, s: seq<string>): (r: seq<string>)
    ensures forall x :: x in r <==> x in s && p(x)
    ensures |r| <= |s|
  {
    if s == [] then [] else (if p(s[0]) then [s[0]] else []) + Filter(p, s[1..])
  }

  lemma {:induction false} FilterSorted(p: string -> bool, s: seq<string>)
    requires StrictlySorted(s)
    ensures StrictlySorted(Filter(p, s))
    decreases |s|
  {
    if s != [] {
      FilterSorted(p, s[1..]);
      var rest := Filter(p, s[1..]);
      forall y | y in rest
        ensures Less(s[0], y)
      {
        var j :| 0 <= j < |s[1..]| && s[1..][j] == y;
        assert s[j + 1] == y;
      }
    }
  }

  lemma {:induction false} FilterAll(p: string -> bool, s: seq<string>)
    requires forall k :: 0 <= k < |s| ==> p(s[k])
    ensures Filter(p, s) == s
    decreases |s|
  {
    if s != [] {
      FilterAll(p, s[1..]);
    }
  }

  /** The keys listed under a prefix (all keys when there is none). */
  function Matching(keys: seq<string>, prefix: Option<string>): seq<string> {
    Filter((k: string) => prefix.None? || HasPrefix(k, prefix.value), keys)
  }

  /** The keys after `start` (all keys when there is none). */
  function After(keys: seq<string>, start: Option<string>): seq<string> {
    Filter((k: string) => start.None? || Less(start.value, k), keys)
  }

  /** One ListObjectsV2 answer: the keys under the prefix and after the
      start key, at most `size` of them. */
  function Page(keys: seq<string>, prefix: Option<string>, start: Option<string>, size: nat): seq<string> {
    var l := After(Matching(keys, prefix), start);
    if |l| <= size then l else l[..size]
  }

  /** In a sorted sequence, the keys after the one at j are those that
      follow it. */
  lemma {:induction false} AfterSortedSuffix(s: seq<string>, j: nat)
    requires StrictlySorted(s) && j < |s|
    ensures After(s, Some(s[j])) == s[j + 1..]
    decreases |s|
  {
    if j == 0 {
      LessIrreflexive(s[0]);
      AfterAll(s[1..], Some(s[0]));
      assert After(s, Some(s[0])) == After(s[1..], Some(s[0]));
    } else {
      LessAsymmetric(s[0], s[j]);
      assert s[1..][j - 1] == s[j];
      AfterSortedSuffix(s[1..], j - 1);
      assert After(s, Some(s[j])) == After(s[1..], Some(s[j]));
    }
  }

  /** When every key is after the start key, all are kept. */
  lemma {:induction false} AfterAll(s: seq<string>, start: Option<string>)
    requires forall k :: 0 <= k < |s| ==> start.None? || Less(start.value, s[k])
    ensures After(s, start) == s
    decreases |s|
  {
    if s != [] {
      AfterAll(s[1..], start);
    }
  }

  /** With no start key every key is after it. */
  lemma AfterNone(s: seq<string>)
    ensures After(s, None) == s
  {
    AfterAll(s, None);
  }

  /** Listing from the last key already listed gives the keys that follow
      it, a page at a time; the page is empty exactly when all keys under
      the prefix have been listed. */
  lemma PageContinues(keys: seq<string>, prefix: Option<string>, list: seq<string>, size: nat)
    requires StrictlySorted(keys) && size > 0
    requires |list| <= |Matching(keys, prefix)| && list == Matching(keys, prefix)[..|list|]
    ensures var m := Matching(keys, prefix);
      var page := Page(keys, prefix, if list == [] then None else Some(list[|list| - 1]), size);
      && |list| + |page| <= |m| && page == m[|list|..|list| + |page|]
      && (page == [] <==> |list| == |m|)
      && |page| <= size
  {
    var m := Matching(keys, prefix);
    var start := if list == [] then None else Some(list[|list| - 1]);
    FilterSorted((k: string) => prefix.None? || HasPrefix(k, prefix.value), keys);
    if list == [] {
      AfterNone(m);
    } else {
      assert list[|list| - 1] == m[|list| - 1];
      AfterSortedSuffix(m, |list| - 1);
    }
    PageOfSuffix(m, |list|, Page(keys, prefix, start, size), size);
  }

  /** A page cut from the keys that follow position n of `m`. */
  lemma PageOfSuffix(m: seq<string>, n: nat, page: seq<string>, size: nat)
    requires n <= |m| && size > 0
    requires page == (if |m[n..]| <= size then m[n..] else m[n..][..size])
    ensures n + |page| <= |m| && page == m[n..n + |page|]
    ensures page == [] <==> n == |m|
    ensures |page| <= size
  {
  }

  /** The key store with `k` added, in order. */
  function InsertKey(keys: seq<string>, k: string): (r: seq<string>)
    requires StrictlySorted(keys)
    ensures forall x :: x in r <==> x in keys || x == k
    ensures StrictlySorted(r)
  {
    if keys == [] then [k]
    else if keys[0] == k then keys
    else if Less(k, keys[0]) then
      assert forall j :: 0 <= j < |keys| ==> Less(k, keys[j]) by {
        forall j | 0 <= j < |keys|
          ensures Less(k, keys[j])
        {
          if j > 0 {
            LessTransitive(k, keys[0], keys[j]);
          }
        }
      }
      [k] + keys
    else
      LessTotal(k, keys[0]);
      var rest := InsertKey(keys[1..], k);
      assert forall y :: y in rest ==> Less(keys[0], y) by {
        forall y | y in rest
          ensures Less(keys[0], y)
        {
          if y != k {
            var j :| 0 <= j < |keys[1..]| && keys[1..][j] == y;
            assert keys[j + 1] == y;
          }
        }
      }
      [keys[0]] + rest
  }

  /** The key store without `k`. */
  function RemoveKey(keys: seq<string>, k: string): seq<string> {
    Filter((x: string) => x != k, keys)
  }

  /** One request as the store receives it. */
  datatype Request =
    | List(prefix: Option<string>, startAfter: Option<string>)
    | Fetch(name: string)
    | Upload(name: string, data: Bytes)
    | Delete(name: string)

  /** The bucket behind s3client.S3Client. The n-th request sent (counting
      from 0) fails in transit exactly when `fails(n)`. */
  class ObjectStore {
    var keys: seq<string>
    var objects: map<string, Bytes>
    const pageSize: nat
    const fails: nat -> bool
    var log: seq<Request>

    ghost predicate Valid()
      reads this
    {
      pageSize > 0 && StrictlySorted(keys) && (forall k :: k in objects <==> k in keys)
    }

    constructor (pageSize: nat, fails: nat -> bool)
      requires pageSize > 0
      ensures Valid() && keys == [] && objects == map[] && log == []
      ensures this.pageSize == pageSize && this.fails == fails
    {
      keys := [];
      objects := map[];
      this.pageSize := pageSize;
      this.fails := fails;
      log := [];
    }

    /** ListObjectsV2 */
    method ListPage(prefix: Option<string>, startAfter: Option<string>) returns (r: Result<seq<string>, Error>)
      requires Valid()
      modifies this
      ensures Valid() && keys == old(keys) && objects == old(objects)
      ensures log == old(log) + [List(prefix, startAfter)]
      ensures r.Failure? <==> fails(|old(log)|)
      ensures r.Failure? ==> r.error == Transport(|old(log)|)
      ensures r.Success? ==> r.value == Page(keys, prefix, startAfter, pageSize)
    {
      r := if fails(|log|) then Failure(Transport(|log|)) else Success(Page(keys, prefix, startAfter, pageSize));
      log := log + [List(prefix, startAfter)];
    }

    /** GetObject */
    method FetchObject(name: string) returns (r: Result<Bytes, Error>)
      requires Valid()
      modifies this
      ensures Valid() && keys == old(keys) && objects == old(objects)
      ensures log == old(log) + [Fetch(name)]
      ensures r == if fails(|old(log)|) then Failure(Transport(|old(log)|))
                   else if name in objects then Success(objects[name])
                   else Failure(NotFound(name))
    {
      r := if fails(|log|) then Failure(Transport(|log|))
           else if name in objects then Success(objects[name])
           else Failure(NotFound(name));
      log := log + [Fetch(name)];
    }

    /** Upload: creates or replaces the object. */
    method UploadObject(name: string, data: Bytes) returns (err: Option<Error>)
      requires Valid()
      modifies this
      ensures Valid()
      ensures log == old(log) + [Upload(name, data)]
      ensures fails(|old(log)|) ==> err == Some(Transport(|old(log)|)) && keys == old(keys) && objects == old(objects)
      ensures !fails(|old(log)|) ==> err.None? && keys == InsertKey(old(keys), name) && objects == old(objects)[name := data]
    {
      if fails(|log|) {
        err := Some(Transport(|log|));
      } else {
        err := None;
        keys := InsertKey(keys, name);
        objects := objects[name := data];
      }
      log := log + [Upload(name, data)];
    }

    /** DeleteObject: deleting a missing key succeeds too. */
    method DeleteObject(name: string) returns (err: Option<Error>)
      requires Valid()
      modifies this
      ensures Valid()
      ensures log == old(log) + [Delete(name)]
      ensures fails(|old(log)|) ==> err == Some(Transport(|old(log)|)) && keys == old(keys) && objects == old(objects)
      ensures !fails(|old(log)|) ==> err.None? && keys == RemoveKey(old(keys), name) && objects == old(objects) - {name}
    {
      if fails(|log|) {
        err := Some(Transport(|log|));
      } else {
        err := None;
        FilterSorted((x: string) => x != name, keys);
        keys := RemoveKey(keys, name);
        objects := objects - {name};
      }
      log := log + [Delete(name)];
    }
  }

  function Last(s: seq<string>): string
    requires s != []
  {
    s[|s| - 1]
  }

  /** The answer the store gives to a listing request. */
  function PageFor(r: Request, keys: seq<string>, size: nat): seq<string>
    requires r.List?
  {
    Page(keys, r.prefix, r.startAfter, size)
  }

  /** The requests ListNames sent: listings under `prefix`, the first with
      no start key, each later one starting after the last key of the page
      before it, which was not empty. */
  predicate PagedLog(reqs: seq<Request>, keys: seq<string>, size: nat, prefix: Option<string>) {
    && reqs != []
    && (forall q :: 0 <= q < |reqs| ==> reqs[q].List? && reqs[q].prefix == prefix)
    && reqs[0].startAfter.None?
    && (forall q :: 0 <= q < |reqs| - 1 ==>
          PageFor(reqs[q], keys, size) != [] && reqs[q + 1].startAfter == Some(Last(PageFor(reqs[q], keys, size))))
  }

  /** The state of ListNames's loop: the keys received so far are the first
      keys under the prefix, the next request starts after the last of them,
      and the requests sent so far form a paged log whose last page was not
      empty. */
  predicate ListingState(keys: seq<string>, size: nat, prefix: Option<string>, sent: seq<Request>,
                         list: seq<string>, startAfter: Option<string>)
  {
    && StrictlySorted(keys) && size > 0
    && |list| <= |Matching(keys, prefix)| && list == Matching(keys, prefix)[..|list|]
    && startAfter == (if list == [] then None else Some(list[|list| - 1]))
    && (sent == [] ==> list == [])
    && (sent != [] ==>
          && PagedLog(sent, keys, size, prefix)
          && PageFor(sent[|sent| - 1], keys, size) != []
          && startAfter == Some(Last(PageFor(sent[|sent| - 1], keys, size))))
  }

  /** One more request of ListNames: the log stays paged; an empty page
      means every key under the prefix has been received; otherwise the
      received keys grow and the state is kept. */
  lemma ListingStep(keys: seq<string>, size: nat, prefix: Option<string>, sent: seq<Request>,
                    list: seq<string>, startAfter: Option<string>)
    requires ListingState(keys, size, prefix, sent, list, startAfter)
    ensures var page := Page(keys, prefix, startAfter, size);
      && PagedLog(sent + [List(prefix, startAfter)], keys, size, prefix)
      && (page == [] ==> list == Matching(keys, prefix))
      && (page != [] ==>
            && |list| < |list + page| <= |Matching(keys, prefix)|
            && ListingState(keys, size, prefix, sent + [List(prefix, startAfter)], list + page, Some(page[|page| - 1])))
  {
    var m := Matching(keys, prefix);
    var page := Page(keys, prefix, startAfter, size);
    assert |list| + |page| <= |m| && page == m[|list|..|list| + |page|] && (page == [] <==> |list| == |m|) by {
      PageContinues(keys, prefix, list, size);
    }
    PagedLogSnoc(sent, keys, size, prefix, startAfter);
    if page != [] {
      ListingNext(keys, size, prefix, sent, list, startAfter, page);
    } else {
      assert list == m[..|list|];
    }
  }

  /** The loop state after a non-empty page. */
  lemma ListingNext(keys: seq<string>, size: nat, prefix: Option<string>, sent: seq<Request>,
                    list: seq<string>, startAfter: Option<string>, page: seq<string>)
    requires ListingState(keys, size, prefix, sent, list, startAfter)
    requires page == Page(keys, prefix, startAfter, size) && page != []
    requires |list| + |page| <= |Matching(keys, prefix)|
    requires page == Matching(keys, prefix)[|list|..|list| + |page|]
    requires PagedLog(sent + [List(prefix, startAfter)], keys, size, prefix)
    ensures ListingState(keys, size, prefix, sent + [List(prefix, startAfter)], list + page, Some(page[|page| - 1]))
  {
    var m := Matching(keys, prefix);
    assert list + page == m[..|list| + |page|] by {
      TakeConcat(m, list, page);
    }
    var next := sent + [List(prefix, startAfter)];
    assert PageFor(next[|next| - 1], keys, size) == page;
    assert (list + page)[|list + page| - 1] == page[|page| - 1];
  }

  /** A request starting after the last key of the previous, non-empty,
      page continues a paged log. */
  lemma PagedLogSnoc(reqs: seq<Request>, keys: seq<string>, size: nat, prefix: Option<string>, start: Option<string>)
    requires reqs == [] ==> start.None?
    requires reqs != [] ==>
      && PagedLog(reqs, keys, size, prefix)
      && PageFor(reqs[|reqs| - 1], keys, size) != []
      && start == Some(Last(PageFor(reqs[|reqs| - 1], keys, size)))
    ensures PagedLog(reqs + [List(prefix, start)], keys, size, prefix)
  {
    var r := reqs + [List(prefix, start)];
    forall q | 0 <= q < |r| - 1
      ensures PageFor(r[q], keys, size) != [] && r[q + 1].startAfter == Some(Last(PageFor(r[q], keys, size)))
    {
      assert r[q] == reqs[q];
      if q < |reqs| - 1 {
        assert r[q + 1] == reqs[q + 1];
      }
    }
  }

  /** A log that grew by one request, seen from the start of the listing. */
  lemma LogSuffix(before: seq<Request>, sent: seq<Request>, x: Request, log: seq<Request>)
    requires log == (before + sent) + [x]
    ensures log == before + (sent + [x]) && log[|before|..] == sent + [x]
  {
  }

  /** What ListNames leaves behind, given the requests `reqs` it sent,
      numbered from `base`: a paged log none of whose requests but the last
      failed; success when the last page came back empty, with every key
      under the prefix; otherwise the last request failed in transit and
      its error is wrapped with "list". */
  predicate ListOutcome(keys: seq<string>, size: nat, fails: nat -> bool, base: nat, prefix: Option<string>,
                        reqs: seq<Request>, r: Result<seq<string>, Error>)
  {
    && PagedLog(reqs, keys, size, prefix)
    && NoFaults(fails, base, base + |reqs| - 1)
    && (r.Success? ==>
          && r.value == Matching(keys, prefix)
          && !fails(base + |reqs| - 1)
          && PageFor(reqs[|reqs| - 1], keys, size) == [])
    && (r.Failure? ==>
          && fails(base + |reqs| - 1)
          && r.error == Wrapped("list", Transport(base + |reqs| - 1)))
  }

  /** A listing request that fails ends ListNames with its error. */
  lemma ListFailed(keys: seq<string>, size: nat, fails: nat -> bool, base: nat, prefix: Option<string>,
                   sent: seq<Request>, list: seq<string>, startAfter: Option<string>, last: nat,
                   r: Result<seq<string>, Error>)
    requires ListingState(keys, size, prefix, sent, list, startAfter)
    requires last == base + |sent|
    requires NoFaults(fails, base, last) && fails(last)
    requires r == Failure(Wrapped("list", Transport(last)))
    ensures ListOutcome(keys, size, fails, base, prefix, sent + [List(prefix, startAfter)], r)
  {
    PagedLogSnoc(sent, keys, size, prefix, startAfter);
  }

  /** An empty page ends ListNames with every key under the prefix. */
  lemma ListDone(keys: seq<string>, size: nat, fails: nat -> bool, base: nat, prefix: Option<string>,
                 sent: seq<Request>, list: seq<string>, startAfter: Option<string>, last: nat,
                 r: Result<seq<string>, Error>)
    requires ListingState(keys, size, prefix, sent, list, startAfter)
    requires last == base + |sent|
    requires NoFaults(fails, base, last) && !fails(last)
    requires Page(keys, prefix, startAfter, size) == []
    requires r == Success(list)
    ensures ListOutcome(keys, size, fails, base, prefix, sent + [List(prefix, startAfter)], r)
  {
    var reqs := sent + [List(prefix, startAfter)];
    assert PagedLog(reqs, keys, size, prefix) && list == Matching(keys, prefix) by {
      ListingStep(keys, size, prefix, sent, list, startAfter);
    }
    assert reqs[|reqs| - 1] == List(prefix, startAfter);
    DoneOutcome(keys, size, fails, base, prefix, reqs, last, r);
  }

  /** A listing whose last request answered with an empty page succeeds. */
  lemma DoneOutcome(keys: seq<string>, size: nat, fails: nat -> bool, base: nat, prefix: Option<string>,
                    reqs: seq<Request>, last: nat, r: Result<seq<string>, Error>)
    requires PagedLog(reqs, keys, size, prefix) && |reqs| >= 1 && reqs[|reqs| - 1].List?
    requires last == base + |reqs| - 1 && NoFaults(fails, base, last) && !fails(last)
    requires PageFor(reqs[|reqs| - 1], keys, size) == []
    requires r == Success(Matching(keys, prefix))
    ensures ListOutcome(keys, size, fails, base, prefix, reqs, r)
  {
  }

  /** lockFileName */
  function LockFileName(id: string): string {
    LOCK_NAME_PREFIX + id + LOCK_NAME_SUFFIX
  }

  /** The body of a lock: a desktop client's lock, naming the id. */
  function LockBody(id: string): Bytes {
    "{\"type\":2,\"clientType\":1,\"clientId\":\"" + id + "\"}"
  }

  /** Every lock name lies under the polled prefix, and different ids give
      different lock names. */
  lemma LockFileNameUnderLocks(id: string, other: string)
    ensures HasPrefix(LockFileName(id), LOCKS_PREFIX)
    ensures LockFileName(id) == LockFileName(other) ==> id == other
  {
    assert LockFileName(id)[..|LOCKS_PREFIX|] == LOCKS_PREFIX;
    if LockFileName(id) == LockFileName(other) {
      assert |id| == |other|;
      assert id == LockFileName(id)[|LOCK_NAME_PREFIX|..|LOCK_NAME_PREFIX| + |id|];
      assert other == LockFileName(other)[|LOCK_NAME_PREFIX|..|LOCK_NAME_PREFIX| + |other|];
    }
  }

  /** Once a lock is stored, the polled listing is never empty: a process
      that waits while holding its own lock can only time out. */
  lemma StoredLockIsListed(keys: seq<string>, id: string, size: nat)
    requires StrictlySorted(keys) && size > 0
    requires LockFileName(id) in keys
    ensures Page(keys, Some(LOCKS_PREFIX), None, size) != []
  {
    LockFileNameUnderLocks(id, id);
    AfterNone(Matching(keys, Some(LOCKS_PREFIX)));
    assert LockFileName(id) in Matching(keys, Some(LOCKS_PREFIX));
  }

  /** Releasing a lock that acquiring created restores the store: the same
      keys and the same objects. */
  lemma ReleaseUndoesAcquire(keys: seq<string>, objects: map<string, Bytes>, k: string, body: Bytes)
    requires StrictlySorted(keys) && k !in keys && k !in objects
    ensures RemoveKey(InsertKey(keys, k), k) == keys
    ensures objects[k := body] - {k} == objects
  {
    RemoveInserted(keys, k);
  }

  /** Removing a key that was inserted into a sorted store without it gives
      back the store's keys. */
  lemma {:induction false} RemoveInserted(keys: seq<string>, k: string)
    requires StrictlySorted(keys) && k !in keys
    ensures RemoveKey(InsertKey(keys, k), k) == keys
    decreases |keys|
  {
    if keys == [] {
      assert [k][1..] == [];
    } else if Less(k, keys[0]) {
      FilterAll((x: string) => x != k, keys);
      assert ([k] + keys)[1..] == keys;
    } else {
      var rest := InsertKey(keys[1..], k);
      assert StrictlySorted(keys[1..]);
      RemoveInserted(keys[1..], k);
      assert ([keys[0]] + rest)[1..] == rest;
    }
  }

  /** A file as S3.Get returns it: only the name and the raw bytes. */
  function FetchedFile(name: string, raw: Bytes): FileValue {
    FileValue("", name, raw, [], [], [])
  }

  /** joplin_provider.S3 */
  class S3 {
    const client: ObjectStore

    /** NewS3 */
    constructor NewS3(client: ObjectStore)
      ensures this.client == client
    {
      this.client := client;
    }

    /** WaitForLockRealised: polls the lock prefix, first at once, until a
        listing comes back empty. `budget` is how many listings the
        deadline leaves time for. */
    method WaitForLockRealised(budget: nat) returns (err: Option<Error>)
      requires client.Valid()
      modifies client
      ensures client.Valid() && client.keys == old(client.keys) && client.objects == old(client.objects)
      ensures |old(client.log)| <= |client.log| <= |old(client.log)| + budget
      ensures client.log[..|old(client.log)|] == old(client.log)
      ensures forall q :: |old(client.log)| <= q < |client.log| ==> client.log[q] == List(Some(LOCKS_PREFIX), None)
      ensures forall q :: |old(client.log)| <= q < |client.log| - 1 ==> !client.fails(q)
      ensures err.None? <==>
        |client.log| > |old(client.log)| && !client.fails(|client.log| - 1)
        && Matching(client.keys, Some(LOCKS_PREFIX)) == []
      ensures err.Some? ==>
        || (|client.log| > |old(client.log)| && client.fails(|client.log| - 1)
            && err == Some(Wrapped("list", Transport(|client.log| - 1))))
        || (|client.log| == |old(client.log)| + budget && err == Some(OtherLockWasNotRealised)
            && (budget > 0 ==> !client.fails(|client.log| - 1) && Matching(client.keys, Some(LOCKS_PREFIX)) != []))
    {
      var polls := 0;
      while polls < budget
        invariant 0 <= polls <= budget
        invariant client.Valid() && client.keys == old(client.keys) && client.objects == old(client.objects)
        invariant |client.log| == |old(client.log)| + polls
        invariant client.log[..|old(client.log)|] == old(client.log)
        invariant forall q :: |old(client.log)| <= q < |client.log| ==> client.log[q] == List(Some(LOCKS_PREFIX), None)
        invariant forall q :: |old(client.log)| <= q < |client.log| ==> !client.fails(q)
        invariant polls > 0 ==> Matching(client.keys, Some(LOCKS_PREFIX)) != []
      {
        var list := client.ListPage(Some(LOCKS_PREFIX), None);
        assert list.Success? ==> (list.value == [] <==> Matching(client.keys, Some(LOCKS_PREFIX)) == []) by {
          AfterNone(Matching(client.keys, Some(LOCKS_PREFIX)));
        }
        if list.Failure? {
          return Some(Wrapped("list", list.error));
        }
        if list.value == [] {
          return None;
        }
        polls := polls + 1;
      }
      return Some(OtherLockWasNotRealised);
    }

    /** AcquireLock: puts this id's lock, without looking for other locks. */
    method AcquireLock(id: string) returns (err: Option<Error>)
      requires client.Valid()
      modifies client
      ensures client.Valid()
      ensures client.log == old(client.log) + [Upload(LockFileName(id), LockBody(id))]
      ensures client.fails(|old(client.log)|) ==>
        err == Some(Wrapped("put", Transport(|old(client.log)|)))
        && client.keys == old(client.keys) && client.objects == old(client.objects)
      ensures !client.fails(|old(client.log)|) ==>
        err.None? && client.keys == InsertKey(old(client.keys), LockFileName(id))
        && client.objects == old(client.objects)[LockFileName(id) := LockBody(id)]
    {
      var file := FileValue("", LockFileName(id), LockBody(id), [], [], []);
      err := Put(file);
      if err.Some? {
        return Some(Wrapped("put", err.value));
      }
    }

    /** ReleaseLock: deletes this id's lock; the error comes back bare. */
    method ReleaseLock(id: string) returns (err: Option<Error>)
      requires client.Valid()
      modifies client
      ensures client.Valid()
      ensures client.log == old(client.log) + [Delete(LockFileName(id))]
      ensures client.fails(|old(client.log)|) ==>
        err == Some(Transport(|old(client.log)|)) && client.keys == old(client.keys) && client.objects == old(client.objects)
      ensures !client.fails(|old(client.log)|) ==>
        err.None? && client.keys == RemoveKey(old(client.keys), LockFileName(id))
        && client.objects == old(client.objects) - {LockFileName(id)}
    {
      err := client.DeleteObject(LockFileName(id));
    }

    /** ListNames: asks for pages, each starting after the last key of the
        one before, until a page comes back empty. */
    method ListNames(prefix: Option<string>) returns (r: Result<seq<string>, Error>)
      requires client.Valid()
      modifies client
      ensures client.Valid() && client.keys == old(client.keys) && client.objects == old(client.objects)
      ensures |client.log| > |old(client.log)| && client.log[..|old(client.log)|] == old(client.log)
      ensures ListOutcome(client.keys, client.pageSize, client.fails, |old(client.log)|, prefix,
                          client.log[|old(client.log)|..], r)
    {
      ghost var sent: seq<Request> := [];
      var startAfter: Option<string> := None;
      var list: seq<string> := [];
      while true
        invariant client.Valid() && client.keys == old(client.keys) && client.objects == old(client.objects)
        invariant client.log == old(client.log) + sent
        invariant ListingState(client.keys, client.pageSize, prefix, sent, list, startAfter)
        invariant NoFaults(client.fails, |old(client.log)|, |client.log|)
        decreases |Matching(client.keys, prefix)| - |list|
      {
        var done;
        done, r, list, startAfter, sent := ListRound(prefix, startAfter, list, old(client.log), sent);
        if done {
          return;
        }
      }
    }

    /** One round of ListNames's loop: one listing request; a failure or an
        empty page ends the listing with its outcome, a non-empty page is
        appended and the next request starts after its last key. */
    method ListRound(prefix: Option<string>, startAfter: Option<string>, list: seq<string>,
                     ghost before: seq<Request>, ghost sent: seq<Request>)
      returns (done: bool, r: Result<seq<string>, Error>, list': seq<string>, startAfter': Option<string>,
               ghost reqs: seq<Request>)
      requires client.Valid()
      requires ListingState(client.keys, client.pageSize, prefix, sent, list, startAfter)
      requires client.log == before + sent && NoFaults(client.fails, |before|, |client.log|)
      modifies client
      ensures client.Valid() && client.keys == old(client.keys) && client.objects == old(client.objects)
      ensures reqs == sent + [List(prefix, startAfter)]
      ensures client.log == before + reqs && client.log[|before|..] == reqs
      ensures done ==> ListOutcome(client.keys, client.pageSize, client.fails, |before|, prefix, reqs, r)
      ensures !done ==>
        && ListingState(client.keys, client.pageSize, prefix, reqs, list', startAfter')
        && NoFaults(client.fails, |before|, |client.log|)
        && |list| < |list'| <= |Matching(client.keys, prefix)|
    {
      ghost var base := |before|;
      ghost var n := |client.log|;
      var tmp := client.ListPage(prefix, startAfter);
      reqs := sent + [List(prefix, startAfter)];
      assert client.log == before + reqs && client.log[|before|..] == reqs by {
        LogSuffix(before, sent, List(prefix, startAfter), client.log);
      }
      if tmp.Failure? {
        done, r, list', startAfter' := true, Failure(Wrapped("list", tmp.error)), list, startAfter;
        ListFailed(client.keys, client.pageSize, client.fails, base, prefix, sent, list, startAfter, n, r);
        return;
      }
      var page := tmp.value;
      if page == [] {
        done, r, list', startAfter' := true, Success(list), list, startAfter;
        ListDone(client.keys, client.pageSize, client.fails, base, prefix, sent, list, startAfter, n, r);
        return;
      }
      assert ListingState(client.keys, client.pageSize, prefix, reqs, list + page, Some(page[|page| - 1]))
          && |list| < |list + page| <= |Matching(client.keys, prefix)| by {
        ListingStep(client.keys, client.pageSize, prefix, sent, list, startAfter);
      }
      NoFaultsSnoc(client.fails, base, n);
      done, r, list', startAfter' := false, Success(list), list + page, Some(page[|page| - 1]);
    }

    /** Get: the stored bytes under the name, nothing split. */
    method Get(name: string) returns (file: Result<FileValue, Error>)
      requires client.Valid()
      modifies client
      ensures client.Valid() && client.keys == old(client.keys) && client.objects == old(client.objects)
      ensures client.log == old(client.log) + [Fetch(name)]
      ensures file.Success? <==> !client.fails(|old(client.log)|) && name in client.objects
      ensures file.Success? ==> file.value == FetchedFile(name, client.objects[name])
      ensures file.Failure? ==> file.error == if client.fails(|old(client.log)|) then Transport(|old(client.log)|) else NotFound(name)
    {
      var ret := client.FetchObject(name);
      if ret.Failure? {
        return Failure(ret.error);
      }
      return Success(FetchedFile(name, ret.value));
    }

    /** Put: uploads the raw bytes under the name. */
    method Put(file: FileValue) returns (err: Option<Error>)
      requires client.Valid()
      modifies client
      ensures client.Valid()
      ensures client.log == old(client.log) + [Upload(file.name, file.raw)]
      ensures client.fails(|old(client.log)|) ==>
        err == Some(Transport(|old(client.log)|)) && client.keys == old(client.keys) && client.objects == old(client.objects)
      ensures !client.fails(|old(client.log)|) ==>
        err.None? && client.keys == InsertKey(old(client.keys), file.name)
        && client.objects == old(client.objects)[file.name := file.raw]
    {
      err := client.UploadObject(file.name, file.raw);
    }
  }
}
