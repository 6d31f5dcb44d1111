/** The web clipper adapter (joplin_provider/webClipper.go): the provider
    backed by the Joplin desktop application's web clipper service. Notes
    are listed page by page, addressed by id, and the adapter has no locks. */
module WebClipperAdapter {
  import opened Text
  import opened Wrappers
  import opened Entities

  const MD_SUFFIX: string := ".md"
  const ID_LINE_PREFIX: Bytes := "id: "
  const PARENT_ID_LINE_PREFIX: Bytes := "parent_id: "

  /** webClipperClient.Note */
  datatype Note = Note(id: string, parentId: string, title: string, body: string)

  /** webClipperClient.List: one page of a listing. */
  datatype NotePage = NotePage(items: seq<Note>, hasMore: bool)

  /** One request as the service receives it. */
  datatype Request =
    | ListNotes(page: nat)
    | GetNote(id: string)
    | PutNote(id: string, body: string)

  /** Page `p` of the listing, counting from 1; past the last page the
      service answers an empty page with nothing more. */
  function PageAt(pages: seq<NotePage>, p: nat): NotePage {
    if 1 <= p <= |pages| then pages[p - 1] else NotePage([], false)
  }

  /** The Joplin web clipper service behind webClipperClient.WebClipper.
      The listing is fixed; the n-th request sent (counting from 0) fails
      in transit exactly when `fails(n)`. */
  class NoteService {
    const pages: seq<NotePage>
    var notes: map<string, Note>
    const fails: nat -> bool
    var log: seq<Request>

    /** Every stored note carries the id it is stored under. */
    ghost predicate Valid()
      reads this
    {
      forall id :: id in notes ==> notes[id].id == id
    }

    constructor (pages: seq<NotePage>, notes: map<string, Note>, fails: nat -> bool)
      requires forall id :: id in notes ==> notes[id].id == id
      ensures Valid()
      ensures this.pages == pages && this.notes == notes && this.fails == fails && log == []
    {
      this.pages := pages;
      this.notes := notes;
      this.fails := fails;
      log := [];
    }

    /** GET /notes?page=<page> */
    method List(page: nat) returns (r: Result<NotePage, Error>)
      modifies this
      ensures notes == old(notes)
      ensures log == old(log) + [ListNotes(page)]
      ensures r.Failure? <==> fails(|old(log)|)
      ensures r.Failure? ==> r.error == Transport(|old(log)|)
      ensures r.Success? ==> r.value == PageAt(pages, page)
    {
      r := if fails(|log|) then Failure(Transport(|log|)) else Success(PageAt(pages, page));
      log := log + [ListNotes(page)];
    }

    /** GET /notes/<id> */
    method Get(id: string) returns (r: Result<Note, Error>)
      modifies this
      ensures notes == old(notes)
      ensures log == old(log) + [GetNote(id)]
      ensures r == if fails(|old(log)|) then Failure(Transport(|old(log)|))
                   else if id in notes then Success(notes[id])
                   else Failure(NotFound(id))
    {
      r := if fails(|log|) then Failure(Transport(|log|))
           else if id in notes then Success(notes[id])
           else Failure(NotFound(id));
      log := log + [GetNote(id)];
    }

    /** PUT /notes/<id> with a new body; the note must exist. */
    method Put(id: string, body: string) returns (r: Result<Note, Error>)
      requires Valid()
      modifies this
      ensures Valid()
      ensures log == old(log) + [PutNote(id, body)]
      ensures fails(|old(log)|) ==> r == Failure(Transport(|old(log)|)) && notes == old(notes)
      ensures !fails(|old(log)|) && id !in old(notes) ==> r == Failure(NotFound(id)) && notes == old(notes)
      ensures !fails(|old(log)|) && id in old(notes) ==>
        && notes == old(notes)[id := old(notes)[id].(body := body)]
        && r == Success(notes[id])
    {
      if fails(|log|) {
        r := Failure(Transport(|log|));
      } else if id !in notes {
        r := Failure(NotFound(id));
      } else {
        notes := notes[id := notes[id].(body := body)];
        r := Success(notes[id]);
      }
      log := log + [PutNote(id, body)];
    }
  }

  /** The names of one page's notes, "<id>.md" each, in order. */
  function Names(items: seq<Note>): (names: seq<string>)
    ensures |names| == |items|
  {
    seq(|items|, i requires 0 <= i < |items| => items[i].id + MD_SUFFIX)
  }

  /** The number of pages a listing from page `from` asks for: up to and
      including the first page that has no more after it. */
  function Requested(pages: seq<NotePage>, from: nat): (n: nat)
    requires from >= 1
    ensures n >= 1
    decreases |pages| + 1 - from
  {
    if PageAt(pages, from).hasMore then 1 + Requested(pages, from + 1) else 1
  }

  /** The names a listing from page `from` collects: the names of every
      page up to and including the first one without more. */
  function NamesFrom(pages: seq<NotePage>, from: nat): seq<string>
    requires from >= 1
    decreases |pages| + 1 - from
  {
    var page := PageAt(pages, from);
    Names(page.items) + if page.hasMore then NamesFrom(pages, from + 1) else []
  }

  /** A name is listed exactly when it is "<id>.md" for a note on one of
      the pages the listing asks for. */
  lemma NamesFromIff(pages: seq<NotePage>, from: nat, name: string)
    requires from >= 1
    ensures name in NamesFrom(pages, from) <==>
      exists p, i :: from <= p < from + Requested(pages, from) && 0 <= i < |PageAt(pages, p).items|
                     && name == PageAt(pages, p).items[i].id + MD_SUFFIX
  {
    NamesFromPages(pages, from, name);
    if name in NamesFrom(pages, from) {
      var p :| from <= p < from + Requested(pages, from) && name in Names(PageAt(pages, p).items);
      InNames(PageAt(pages, p).items, name);
    }
    if exists p, i :: from <= p < from + Requested(pages, from) && 0 <= i < |PageAt(pages, p).items|
                      && name == PageAt(pages, p).items[i].id + MD_SUFFIX {
      var p, i :| from <= p < from + Requested(pages, from) && 0 <= i < |PageAt(pages, p).items|
                  && name == PageAt(pages, p).items[i].id + MD_SUFFIX;
      InNames(PageAt(pages, p).items, name);
    }
  }

  /** A name is listed exactly when it is among the names of one of the
      pages the listing asks for. */
  lemma {:induction false} NamesFromPages(pages: seq<NotePage>, from: nat, name: string)
    requires from >= 1
    ensures name in NamesFrom(pages, from) <==>
      exists p :: from <= p < from + Requested(pages, from) && name in Names(PageAt(pages, p).items)
    decreases |pages| + 1 - from
  {
    var page := PageAt(pages, from);
    if page.hasMore {
      NamesFromPages(pages, from + 1, name);
      if exists p :: from <= p < from + Requested(pages, from) && name in Names(PageAt(pages, p).items) {
        var p :| from <= p < from + Requested(pages, from) && name in Names(PageAt(pages, p).items);
        if p != from {
          assert from + 1 <= p < from + 1 + Requested(pages, from + 1);
        }
      }
    } else {
      assert NamesFrom(pages, from) == Names(page.items);
    }
  }

  /** The names of a page are "<id>.md" for its notes. */
  lemma InNames(items: seq<Note>, name: string)
    ensures name in Names(items) <==> exists i :: 0 <= i < |items| && name == items[i].id + MD_SUFFIX
  {
    if name in Names(items) {
      var i :| 0 <= i < |Names(items)| && Names(items)[i] == name;
    }
    if exists i :: 0 <= i < |items| && name == items[i].id + MD_SUFFIX {
      var i :| 0 <= i < |items| && name == items[i].id + MD_SUFFIX;
      assert Names(items)[i] == name;
    }
  }

  /** The id the adapter addresses a note name by: the name without ".md". */
  function IdOf(name: string): string {
    TrimSuffix(name, MD_SUFFIX)
  }

  /** A listed name maps back to exactly the id it was made from. */
  lemma IdOfListedName(id: string)
    ensures HasSuffix(id + MD_SUFFIX, MD_SUFFIX) && IdOf(id + MD_SUFFIX) == id
  {
    TrimSuffixOfAppended(id, MD_SUFFIX);
  }

  /** Every name ListNames collects ends in ".md", and Get maps it back to
      the id of a note on one of the listed pages. */
  lemma ListedNameIsNoteId(pages: seq<NotePage>, name: string)
    requires name in NamesFrom(pages, 1)
    ensures HasSuffix(name, MD_SUFFIX)
    ensures exists p, i :: 1 <= p < 1 + Requested(pages, 1) && 0 <= i < |PageAt(pages, p).items|
                           && IdOf(name) == PageAt(pages, p).items[i].id
  {
    NamesFromIff(pages, 1, name);
    var p, i :| 1 <= p < 1 + Requested(pages, 1) && 0 <= i < |PageAt(pages, p).items|
                && name == PageAt(pages, p).items[i].id + MD_SUFFIX;
    IdOfListedName(PageAt(pages, p).items[i].id);
  }

  /** The File Get builds from a note: the web clipper provider, the title
      as header, the body as data, the id and parent id as metadata, and no
      raw bytes. */
  function NoteFile(name: string, note: Note): FileValue {
    FileValue(PROVIDER_WEB_CLIPPER, name, [], note.title, note.body,
              [ID_LINE_PREFIX + note.id, PARENT_ID_LINE_PREFIX + note.parentId])
  }

  /** MetaData("id") and MetaData("parent_id") of a fetched note give back
      the note's id and parent id. */
  lemma NoteFileMeta(name: string, note: Note)
    ensures LookupMeta(NoteFile(name, note).meta, "id") == note.id
    ensures LookupMeta(NoteFile(name, note).meta, "parent_id") == note.parentId
  {
    var meta := NoteFile(name, note).meta;
    assert !HasSuffix("id", META_SEPARATOR);
    assert !HasSuffix("parent_id", META_SEPARATOR);
    assert Needle("id") == ID_LINE_PREFIX;
    assert Needle("parent_id") == PARENT_ID_LINE_PREFIX;
    assert HasPrefix(meta[0], ID_LINE_PREFIX) && meta[0][|ID_LINE_PREFIX|..] == note.id;
    assert !HasPrefix(meta[0], PARENT_ID_LINE_PREFIX) by {
      assert meta[0][0] == 'i' != 'p' == PARENT_ID_LINE_PREFIX[0];
    }
    assert HasPrefix(meta[1], PARENT_ID_LINE_PREFIX) && meta[1][|PARENT_ID_LINE_PREFIX|..] == note.parentId;
  }

  /** What ListNames leaves behind, given the requests `reqs` it sent,
      numbered from `base`: pages 1, 2, … in order, none failing but
      possibly the last; success once the page without more is in, with
      the names of every page; otherwise the last request failed and its
      error is wrapped with "list". */
  predicate ListOutcome(pages: seq<NotePage>, fails: nat -> bool, base: nat, reqs: seq<Request>,
                        r: Result<seq<string>, Error>)
  {
    && 1 <= |reqs| <= Requested(pages, 1)
    && (forall q :: 0 <= q < |reqs| ==> reqs[q] == ListNotes(q + 1))
    && NoFaults(fails, base, base + |reqs| - 1)
    && (r.Success? ==>
          && |reqs| == Requested(pages, 1)
          && !fails(base + |reqs| - 1)
          && r.value == NamesFrom(pages, 1))
    && (r.Failure? ==>
          && fails(base + |reqs| - 1)
          && r.error == Wrapped("list", Transport(base + |reqs| - 1)))
  }

  /** The state of ListNames's loop before it asks for page `page`: pages
      1 to page - 1 were asked for in order, had more after them, and
      their names are in `list`. */
  predicate ListingState(pages: seq<NotePage>, page: nat, sent: seq<Request>, list: seq<string>) {
    && 1 <= page <= |pages| + 1
    && |sent| == page - 1
    && (forall q :: 0 <= q < |sent| ==> sent[q] == ListNotes(q + 1))
    && Requested(pages, 1) == page - 1 + Requested(pages, page)
    && list + NamesFrom(pages, page) == NamesFrom(pages, 1)
  }

  /** One more page: the requests stay in order; a page without more
      completes the listing, any other keeps the state for the next page. */
  lemma ListingStep(pages: seq<NotePage>, page: nat, sent: seq<Request>, list: seq<string>)
    requires ListingState(pages, page, sent, list)
    ensures var reqs := sent + [ListNotes(page)];
      && |reqs| <= Requested(pages, 1)
      && (forall q :: 0 <= q < |reqs| ==> reqs[q] == ListNotes(q + 1))
      && (!PageAt(pages, page).hasMore ==>
            |reqs| == Requested(pages, 1) && list + Names(PageAt(pages, page).items) == NamesFrom(pages, 1))
      && (PageAt(pages, page).hasMore ==>
            ListingState(pages, page + 1, reqs, list + Names(PageAt(pages, page).items)))
  {
    var items := Names(PageAt(pages, page).items);
    if PageAt(pages, page).hasMore {
      assert list + items + NamesFrom(pages, page + 1) == list + (items + NamesFrom(pages, page + 1));
    } else {
      assert items + [] == items;
    }
  }

  /** The web clipper provider. */
  class WebClipper {
    const client: NoteService

    constructor NewWebClipper(client: NoteService)
      ensures this.client == client
    {
      this.client := client;
    }

    /** The web clipper has no locks: taking one always succeeds. */
    method AcquireLock(id: string) returns (err: Option<Error>)
      ensures err.None?
    {
      return None;
    }

    /** The web clipper has no locks: releasing one always succeeds. */
    method ReleaseLock(id: string) returns (err: Option<Error>)
      ensures err.None?
    {
      return None;
    }

    /** ListNames: asks for pages 1, 2, … and collects "<id>.md" for every
        note, up to and including the page that has no more after it. */
    method ListNames() returns (r: Result<seq<string>, Error>)
      modifies client
      ensures client.notes == old(client.notes)
      ensures |client.log| > |old(client.log)| && client.log[..|old(client.log)|] == old(client.log)
      ensures ListOutcome(client.pages, client.fails, |old(client.log)|, client.log[|old(client.log)|..], r)
    {
      ghost var sent: seq<Request> := [];
      var page := 1;
      var list: seq<string> := [];
      while true
        invariant client.notes == old(client.notes)
        invariant client.log == old(client.log) + sent
        invariant ListingState(client.pages, page, sent, list)
        invariant NoFaults(client.fails, |old(client.log)|, |client.log|)
        decreases |client.pages| + 1 - page
      {
        ListingStep(client.pages, page, sent, list);
        ghost var n := |client.log|;
        var resp := client.List(page);
        assert client.log == old(client.log) + (sent + [ListNotes(page)]);
        sent := sent + [ListNotes(page)];
        assert client.log[|old(client.log)|..] == sent;
        if resp.Failure? {
          return Failure(Wrapped("list", resp.error));
        }
        NoFaultsSnoc(client.fails, |old(client.log)|, n);
        list := AppendNames(list, resp.value.items);
        if !resp.value.hasMore {
          return Success(list);
        }
        page := page + 1;
      }
    }

    /** The inner loop of ListNames: appends "<id>.md" for every note of a
        page. */
    method AppendNames(list: seq<string>, items: seq<Note>) returns (list': seq<string>)
      ensures list' == list + Names(items)
    {
      list' := list;
      var i := 0;
      while i < |items|
        invariant 0 <= i <= |items|
        invariant list' == list + Names(items[..i])
      {
        assert Names(items[..i + 1]) == Names(items[..i]) + [items[i].id + MD_SUFFIX];
        list' := list' + [items[i].id + MD_SUFFIX];
        i := i + 1;
      }
      assert items[..i] == items;
    }

    /** Get: fetches the note whose id is the name without ".md". */
    method Get(name: string) returns (file: Result<FileValue, Error>)
      modifies client
      ensures client.notes == old(client.notes)
      ensures client.log == old(client.log) + [GetNote(IdOf(name))]
      ensures file.Success? <==> !client.fails(|old(client.log)|) && IdOf(name) in client.notes
      ensures file.Success? ==> file.value == NoteFile(name, client.notes[IdOf(name)])
      ensures file.Failure? ==>
        file.error == Wrapped("get", if client.fails(|old(client.log)|) then Transport(|old(client.log)|)
                                     else NotFound(IdOf(name)))
    {
      var id := TrimSuffix(name, MD_SUFFIX);
      var note := client.Get(id);
      if note.Failure? {
        return Failure(Wrapped("get", note.error));
      }
      return Success(NoteFile(name, note.value));
    }

    /** Put: sends the file's data, not its raw bytes, as the body of the
        note whose id is the name without ".md"; the error is not wrapped. */
    method Put(file: FileValue) returns (err: Option<Error>)
      requires client.Valid()
      modifies client
      ensures client.Valid()
      ensures client.log == old(client.log) + [PutNote(IdOf(file.name), file.data)]
      ensures client.fails(|old(client.log)|) ==>
        err == Some(Transport(|old(client.log)|)) && client.notes == old(client.notes)
      ensures !client.fails(|old(client.log)|) && IdOf(file.name) !in old(client.notes) ==>
        err == Some(NotFound(IdOf(file.name))) && client.notes == old(client.notes)
      ensures !client.fails(|old(client.log)|) && IdOf(file.name) in old(client.notes) ==>
        && err.None?
        && client.notes == old(client.notes)[IdOf(file.name) := old(client.notes)[IdOf(file.name)].(body := file.data)]
    {
      var id := TrimSuffix(file.name, MD_SUFFIX);
      var note := client.Put(id, file.data);
      err := if note.Failure? then Some(note.error) else None;
    }
  }
}
