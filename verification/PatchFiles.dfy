/** The patch engine on files: every change goes through a temporary file and a rename. */
module PatchFiles {
  import opened Wrappers
  import opened Text
  import opened PatchText

  /**
   * What may go wrong in the file system during one write. A failure when the file is closed goes unnoticed: then only
   * so many characters have reached the file.
   */
  datatype Faults = Faults(openFails: bool, written: nat, writeFails: bool, closeKeeps: Option<nat>, renameFails: bool)

  /** No failure that atomic_write notices. */
  predicate Succeeds(faults: Faults) { !faults.openFails && !faults.writeFails && !faults.renameFails }

  /** What the closed file holds. */
  function Stored(content: string, faults: Faults): string {
    if faults.closeKeeps.Some? && faults.closeKeeps.value < |content|
    then content[..faults.closeKeeps.value] else content
  }

  /** What a file that cannot be opened is read as by a program that does not look. */
  function ReadUnchecked(content: string, readFails: bool): string {
    if readFails then "" else content
  }

  function TemporaryName(path: string): string {
    path + ".localagent.tmp"
  }

  lemma TemporaryIsAnother(path: string)
    ensures TemporaryName(path) != path
  {
    assert |TemporaryName(path)| > |path|;
  }

  /** At this moment the target holds all of the old or all of the new content, and no other file has changed. */
  ghost predicate AllOrNothing(before: map<string, string>, now: map<string, string>, path: string, content: string) {
    && (forall p :: p != TemporaryName(path) && p != path ==>
                      (p in now <==> p in before) && (p in now ==> now[p] == before[p]))
    && (path in before || path in now ==>
          || (path in now && now[path] == content)
          || (path in now && path in before && now[path] == before[path])
          || (path !in now && path !in before))
  }

  /** Only the temporary file differs, or the target has been replaced as well. */
  lemma TemporaryOnly(before: map<string, string>, now: map<string, string>, path: string, content: string)
    requires now - {TemporaryName(path)} == before - {TemporaryName(path)}
          || now == (before - {TemporaryName(path)})[path := content]
    ensures AllOrNothing(before, now, path, content)
  {
    TemporaryIsAnother(path);
    forall p | p != TemporaryName(path) && p != path
      ensures (p in now <==> p in before) && (p in now ==> now[p] == before[p])
    {
      if now != (before - {TemporaryName(path)})[path := content] {
        SameOutside(before, now, TemporaryName(path), p);
      }
    }
    if now != (before - {TemporaryName(path)})[path := content] {
      SameOutside(before, now, TemporaryName(path), path);
    }
  }

  lemma SameOutside(before: map<string, string>, now: map<string, string>, tmp: string, p: string)
    requires now - {tmp} == before - {tmp} && p != tmp
    ensures (p in now <==> p in before) && (p in now ==> now[p] == before[p])
  {
    assert p in now <==> p in now - {tmp};
    assert p in before <==> p in before - {tmp};
    if p in now {
      assert now[p] == (now - {tmp})[p] == (before - {tmp})[p] == before[p];
    }
  }

  ghost predicate OnlyTemporary(before: map<string, string>, now: map<string, string>, path: string) {
    now - {TemporaryName(path)} == before - {TemporaryName(path)}
  }

  /** The rename: all or nothing of what was stored, which is all or nothing of the content exactly in these cases. */
  lemma StoredAtEnd(before: map<string, string>, path: string, content: string, faults: Faults)
    ensures var now := (before - {TemporaryName(path)})[path := Stored(content, faults)];
            && AllOrNothing(before, now, path, Stored(content, faults))
            && (AllOrNothing(before, now, path, content) <==>
                  Stored(content, faults) == content || (path in before && before[path] == Stored(content, faults)))
  {
    hide TemporaryName, Stored;
    TemporaryOnly(before, (before - {TemporaryName(path)})[path := Stored(content, faults)], path,
                  Stored(content, faults));
  }

  /** A file whose end was lost is put in place, and reported as written. */
  lemma LossGoesUnnoticed()
    ensures var faults := Faults(false, 0, false, Some(0), false);
            && Succeeds(faults) && Stored("new", faults) == ""
            && !AllOrNothing(map["f" := "old"], (map["f" := "old"] - {TemporaryName("f")})["f" := ""], "f", "new")
  {
    StoredAtEnd(map["f" := "old"], "f", "new", Faults(false, 0, false, Some(0), false));
  }

  class FileSystem {
    var files: map<string, string>
    ghost var history: seq<map<string, string>>  // the files after every single step so far

    constructor (files: map<string, string>)
      ensures this.files == files && history == []
    {
      this.files, history := files, [];
    }

    /** One step the operating system takes at once. */
    method Step(next: map<string, string>)
      modifies this
      ensures files == next && history == old(history) + [next]
    {
      files := next;
      history := history + [next];
    }

    /** A step that touches nothing but the temporary file of an atomic write. */
    method TouchTemporary(path: string, next: map<string, string>, ghost before: map<string, string>, ghost from: nat)
      requires OnlyTemporary(before, files, path) && OnlyTemporary(files, next, path)
      requires from <= |history| && forall k :: from <= k < |history| ==> OnlyTemporary(before, history[k], path)
      modifies this
      ensures files == next && history == old(history) + [next]
      ensures OnlyTemporary(before, files, path)
      ensures forall k :: from <= k < |history| ==> OnlyTemporary(before, history[k], path)
    {
      Step(next);
    }

    /**
     * atomic_write: up to the last step only the temporary file changes, and the last step is the rename. So the target
     * holds all of the old or all of what the temporary file held, after every step. That is all or nothing of the new
     * content exactly if the write failed, nothing was lost when the file was closed, or what was kept is what the
     * target held before. A loss is not noticed.
     */
    method AtomicWrite(path: string, content: string, faults: Faults) returns (ok: bool)
      modifies this
      ensures old(history) <= history
      ensures forall k :: |old(history)| <= k < |history| ==>
                            AllOrNothing(old(files), history[k], path, Stored(content, faults))
      ensures (forall k :: |old(history)| <= k < |history| ==> AllOrNothing(old(files), history[k], path, content)) <==>
              !ok || Stored(content, faults) == content ||
              (path in old(files) && old(files)[path] == Stored(content, faults))
      ensures ok <==> !faults.openFails && !faults.writeFails && !faults.renameFails
      ensures ok ==> files == (old(files) - {path + ".localagent.tmp"})[path := Stored(content, faults)]
      ensures !ok ==> OnlyTemporary(old(files), files, path)
    {
      hide AllOrNothing;
      var tmp := TemporaryName(path);
      ghost var before, from := files, |history|;
      StoredAtEnd(before, path, content, faults);
      forall now: map<string, string> | OnlyTemporary(before, now, path)
        ensures AllOrNothing(before, now, path, content) && AllOrNothing(before, now, path, Stored(content, faults))
      {
        TemporaryOnly(before, now, path, content);
        TemporaryOnly(before, now, path, Stored(content, faults));
      }
      if faults.openFails {
        return false;
      }
      TouchTemporary(path, files[tmp := ""], before, from);
      var written := if faults.written <= |content| then content[..faults.written] else content;
      TouchTemporary(path, files[tmp := written], before, from);
      if faults.writeFails {
        TouchTemporary(path, files - {tmp}, before, from);
        return false;
      }
      TouchTemporary(path, files[tmp := Stored(content, faults)], before, from);
      if faults.renameFails {
        TouchTemporary(path, files - {tmp}, before, from);
        return false;
      }
      Step((files - {tmp})[path := Stored(content, faults)]);
      assert files == history[|history| - 1];
      ok := true;
    }

    /** exact_replace: the file is changed as ExactReplace says, or not at all. */
    method ExactReplaceFile(path: string, oldText: string, newText: string, readFails: bool, faults: Faults)
      returns (success: bool, message: string)
      modifies this
      ensures success <==>
                && path in old(files) && !readFails && ExactReplace(old(files)[path], oldText, newText).Patched?
                && Succeeds(faults)
      ensures success ==>
                path in files && files[path] == Stored(ExactReplace(old(files)[path], oldText, newText).content, faults)
      ensures !success ==> OnlyTemporary(old(files), files, path)
      ensures path in old(files) && !readFails && ExactReplace(old(files)[path], oldText, newText).Refused? ==>
                files == old(files)
      ensures message ==
              if path !in old(files) then "file not found"
              else if readFails then "failed to read file"
              else
                match ExactReplace(old(files)[path], oldText, newText)
                case Refused(reason) => reason
                case Patched(_) => if success then "replaced" else "atomic write failed"
    {
      success := false;
      if path !in files {
        return false, "file not found";
      }
      if readFails {
        return false, "failed to read file";
      }
      var content := files[path];
      var first := Find(content, oldText, 0);
      if first == NPOS {
        return false, "old text not found";
      }
      var second := Find(content, oldText, first + |oldText|);
      if second != NPOS {
        return false, "old text is not unique";
      }
      var updated := ReplaceAt(content, first, oldText, newText);
      var written := AtomicWrite(path, updated, faults);
      if !written {
        return false, "atomic write failed";
      }
      return true, "replaced";
    }

    /**
     * apply_unified_diff: the file is changed as ApplyDiff says, or not at all; one that cannot be read counts as
     * empty.
     */
    method ApplyUnifiedDiff(path: string, diffText: string, readFails: bool, faults: Faults)
      returns (success: bool, message: string)
      modifies this
      ensures success <==>
                && path in old(files) && ApplyDiff(ReadUnchecked(old(files)[path], readFails), diffText).Patched?
                && Succeeds(faults)
      ensures success ==>
                && path in files
                && files[path] ==
                   Stored(ApplyDiff(ReadUnchecked(old(files)[path], readFails), diffText).content, faults)
      ensures !success ==> OnlyTemporary(old(files), files, path)
      ensures path in old(files) && ApplyDiff(ReadUnchecked(old(files)[path], readFails), diffText).Refused? ==>
                files == old(files)
      ensures message ==
              if path !in old(files) then "file not found"
              else
                match ApplyDiff(ReadUnchecked(old(files)[path], readFails), diffText)
                case Refused(reason) => reason
                case Patched(_) => if success then "diff applied" else "atomic write failed"
    {
      if path !in files {
        return false, "file not found";
      }
      var oldChunk, newChunk := ParseDiff(diffText);
      if oldChunk == "" && newChunk == "" {
        return false, "no applicable hunks";
      }
      var content := if readFails then "" else files[path];
      var pos := Find(content, oldChunk, 0);
      if pos == NPOS {
        return false, "hunk context not found";
      }
      content := ReplaceAt(content, pos, oldChunk, newChunk);
      var written := AtomicWrite(path, content, faults);
      if !written {
        return false, "atomic write failed";
      }
      return true, "diff applied";
    }
  }

  /** A diff is applied to a file that cannot be read exactly if it only adds, and then it replaces all of the file. */
  lemma UnreadableIsOverwritten(content: string, diffText: string)
    ensures var outcome := ApplyDiff(ReadUnchecked(content, true), diffText);
            && (outcome.Patched? <==> ReadDiff(diffText).oldChunk == "" && ReadDiff(diffText).newChunk != "")
            && (outcome.Patched? ==> outcome.content == ReadDiff(diffText).newChunk)
  {
    hide ReadDiff;
    var added := ReadDiff(diffText).newChunk;
    assert Occurs("", "", 0);
    assert ReplaceAt("", 0, "", added) == added;
  }
}
