/** How the files each provider returns travel through the todo manager:
    what SplitRaw, SetData and isChild make of them. */
module Providers {
  import opened Text
  import opened Wrappers
  import opened Entities
  import Todo
  import S3Adapter
  import WebClipperAdapter

  /** A file S3.Get returns has no provider set, so SplitRaw, FormatRaw
      and SetData leave its raw bytes alone: SetData only replaces the body
      and cannot fail, and S3.Put uploads the bytes exactly as fetched.
      Its metadata is empty, so it has no id. */
  lemma FetchedFileKeepsRaw(name: string, raw: Bytes, data: Bytes, now: Bytes)
    ensures var f := S3Adapter.FetchedFile(name, raw);
      && f.provider != PROVIDER_S3
      && Entities.SplitOf(f) == f
      && Entities.FormatOf(f) == f
      && Entities.SetDataOf(f, data, now) == (f.(data := data), None)
      && Entities.SetDataOf(f, data, now).0.raw == raw
      && Entities.LookupMeta(f.meta, "id") == []
  {
  }

  /** A web-clipper note is never anyone's child, since its raw bytes are
      empty; SetData on it replaces the body, which WebClipper.Put sends as
      the note's new body. */
  lemma ClippedNoteIsNoChild(parentID: string, name: string, note: WebClipperAdapter.Note, data: Bytes, now: Bytes)
    ensures var f := WebClipperAdapter.NoteFile(name, note);
      && !Todo.IsChild(parentID, f)
      && Entities.SplitOf(f) == f
      && Entities.SetDataOf(f, data, now) == (WebClipperAdapter.NoteFile(name, note.(body := data)), None)
  {
    Todo.IsChildIff(parentID, WebClipperAdapter.NoteFile(name, note));
  }
}
