/**
 * The image manager dialog (src/components/ImageManagerModal.tsx): a local copy of the
 * listing's images that the user extends with newly picked files and shortens by
 * removing one tile at a time; saving hands the local list to the caller, cancelling
 * only closes. The local list lives as long as the component, so a cancelled edit is
 * still there when the dialog opens again.
 */
module ImageManager {
  import opened AccountTypes

  /** `[...prev, ...Array.from(files)]` when the input has a file list, `prev` when
      it has none. */
  function Added(prev: seq<File>, files: Option<seq<File>>): seq<File>
  {
    if files.None? then prev else prev + files.value
  }

  /** `prev.filter((_, i) => i !== index)`. */
  function WithoutIndex(prev: seq<File>, index: int): seq<File>
    decreases |prev|
  {
    if prev == [] then []
    else (if index == 0 then [] else [prev[0]]) + WithoutIndex(prev[1..], index - 1)
  }

  /** Adding keeps every existing entry in place and puts the new files after them in
      the order they were picked; an input without a file list changes nothing. */
  lemma AddedFacts(prev: seq<File>, files: Option<seq<File>>)
    ensures files.None? ==> Added(prev, files) == prev
    ensures files.Some? ==> |Added(prev, files)| == |prev| + |files.value|
    ensures Added(prev, files)[..|prev|] == prev
    ensures files.Some? ==> Added(prev, files)[|prev|..] == files.value
  {
  }

  /** Removing a valid position drops exactly that entry and keeps the others in
      order; any other position (negative, past the end, or not a tile) leaves the
      list as it was. */
  lemma WithoutIndexFacts(prev: seq<File>, index: int)
    ensures 0 <= index < |prev| ==> WithoutIndex(prev, index) == prev[..index] + prev[index + 1..]
    ensures !(0 <= index < |prev|) ==> WithoutIndex(prev, index) == prev
  {
    if 0 <= index < |prev| {
      WithoutValidIndex(prev, index);
    } else {
      WithoutOtherIndex(prev, index);
    }
  }

  lemma {:induction false} WithoutOtherIndex(prev: seq<File>, index: int)
    requires !(0 <= index < |prev|)
    ensures WithoutIndex(prev, index) == prev
    decreases |prev|
  {
    if prev != [] {
      WithoutOtherIndex(prev[1..], index - 1);
      assert prev == [prev[0]] + prev[1..];
    }
  }

  lemma {:induction false} WithoutValidIndex(prev: seq<File>, index: int)
    requires 0 <= index < |prev|
    ensures WithoutIndex(prev, index) == prev[..index] + prev[index + 1..]
    decreases |prev|
  {
    var tail := prev[1..];
    if index == 0 {
      WithoutOtherIndex(tail, -1);
      assert prev[..0] + prev[1..] == tail;
    } else {
      WithoutValidIndex(tail, index - 1);
      assert WithoutIndex(prev, index) == [prev[0]] + (tail[..index - 1] + tail[index..]);
      assert prev[..index] == [prev[0]] + tail[..index - 1];
      assert prev[index + 1..] == tail[index..];
    }
  }

  /** A valid removal shortens the list by exactly one. */
  lemma WithoutIndexLength(prev: seq<File>, index: int)
    ensures |WithoutIndex(prev, index)| == if 0 <= index < |prev| then |prev| - 1 else |prev|
  {
    WithoutIndexFacts(prev, index);
  }

  /** Removing the tile of the file just added undoes the addition. */
  lemma RemoveUndoesAdd(prev: seq<File>, f: File)
    ensures WithoutIndex(Added(prev, Some([f])), |prev|) == prev
  {
    var s := Added(prev, Some([f]));
    WithoutIndexFacts(s, |prev|);
    assert s[..|prev|] == prev;
  }

  class Manager {
    /** `localImages`. */
    var localImages: seq<File>
    /** Whether `onOpenChange(false)` has been called. */
    var closed: bool

    /** `useState<File[]>(images)`. */
    constructor (images: seq<File>)
      ensures localImages == images && !closed
    {
      localImages := images;
      closed := false;
    }

    /** handleAddFiles. */
    method AddFiles(files: Option<seq<File>>)
      modifies this
      ensures localImages == Added(old(localImages), files)
      ensures closed == old(closed)
    {
      if files.Some? {
        localImages := localImages + files.value;
      }
    }

    /** handleRemove. */
    method Remove(index: int)
      modifies this
      ensures localImages == WithoutIndex(old(localImages), index)
      ensures closed == old(closed)
    {
      localImages := WithoutIndex(localImages, index);
    }

    /** handleSave: `onUpdateImages` gets exactly the current list, then the dialog
        closes. */
    method Save() returns (handed: seq<File>)
      modifies this
      ensures handed == old(localImages) && localImages == old(localImages)
      ensures closed
    {
      handed := localImages;
      closed := true;
    }

    /** The X button and "Huỷ": close without calling `onUpdateImages`; the local
        edits are kept. */
    method Cancel()
      modifies this
      ensures localImages == old(localImages)
      ensures closed
    {
      closed := true;
    }
  }
}
