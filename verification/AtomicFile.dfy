/** Replacing a file so that nobody, at any moment and after any failure or crash, finds it half
    written. */
module AtomicFile {
  import opened Prelude

  type Bytes = seq<Byte>
  type Files = map<string, Bytes>

  const TEMP_ATTEMPTS := 8

  function TempName(path: string, random: string): string {
    "." + path + ".tmp-" + random
  }

  function Read(files: Files, path: string): Option<Bytes> {
    if path in files then Some(files[path]) else None
  }

  /** What the operating system lets through. `openable` answers the attempts to create a temporary
      file; `written` is how much has reached it at some moment of the write, or when the write fails. */
  datatype Luck = Luck(
    randoms: seq<string>, openable: seq<bool>,
    written: nat, writeOk: bool, syncOk: bool, renameOk: bool, removeOk: bool)

  predicate Rolled(luck: Luck) {
    |luck.randoms| == |luck.openable| == TEMP_ATTEMPTS
  }

  /** From attempt i on, the first of the eight names that is not in use can be opened. */
  predicate Opens(files: Files, path: string, luck: Luck, i: nat)
    requires Rolled(luck)
    decreases 8 - i
  {
    i < 8 && if TempName(path, luck.randoms[i]) in files then Opens(files, path, luck, i + 1) else luck.openable[i]
  }

  /** Seen by a reader or left by a crash: the file is the old one or the complete new one, and only
      one name not in use before differs besides. */
  ghost predicate Harmless(before: Files, path: string, contents: Bytes, now: Files) {
    && (Read(now, path) == Read(before, path) || Read(now, path) == Some(contents))
    && exists tmp :: OnlyTemp(before, path, now, tmp)
  }

  ghost predicate OnlyTemp(before: Files, path: string, now: Files, tmp: string) {
    && tmp !in before && tmp != path
    && forall name :: name != path && name != tmp ==> Read(now, name) == Read(before, name)
  }

  ghost predicate AllHarmless(before: Files, path: string, contents: Bytes, states: seq<Files>) {
    forall i :: 0 <= i < |states| ==> Harmless(before, path, contents, states[i])
  }

  class Directory {
    var files: Files
    /** Every state the directory has been in. */
    ghost var trace: seq<Files>

    constructor (files: Files)
      ensures this.files == files && trace == [files]
    {
      this.files, trace := files, [files];
    }

    method Put(name: string, contents: Bytes)
      modifies this
      ensures files == old(files)[name := contents] && trace == old(trace) + [files]
    {
      files := files[name := contents];
      trace := trace + [files];
    }

    method Remove(name: string)
      modifies this
      ensures files == old(files) - {name} && trace == old(trace) + [files]
    {
      files := files - {name};
      trace := trace + [files];
    }

    /** Replaces the target in one step. */
    method Rename(tmp: string, path: string)
      requires tmp in files && tmp != path
      modifies this
      ensures files == (old(files) - {tmp})[path := old(files)[tmp]] && trace == old(trace) + [files]
    {
      files := (files - {tmp})[path := files[tmp]];
      trace := trace + [files];
    }

    method CreateUniqueTemp(path: string, luck: Luck) returns (tmp: Option<string>)
      requires Rolled(luck)
      modifies this
      ensures tmp.Some? <==> Opens(old(files), path, luck, 0)
      ensures tmp.None? ==> files == old(files) && trace == old(trace)
      ensures tmp.Some? ==>
        && tmp.value !in old(files) && tmp.value != path
        && files == old(files)[tmp.value := []] && trace == old(trace) + [files]
    {
      for i := 0 to TEMP_ATTEMPTS
        invariant files == old(files) && trace == old(trace)
        invariant Opens(files, path, luck, 0) == Opens(files, path, luck, i)
      {
        var name := TempName(path, luck.randoms[i]);
        if name in files {
          continue;
        }
        if !luck.openable[i] {
          return None;
        }
        assert |name| > |path|;
        Put(name, []);
        return Some(name);
      }
      return None;
    }

    method WriteAtomic(path: string, contents: Bytes, luck: Luck) returns (ok: bool)
      requires Rolled(luck)
      modifies this
      ensures ok <==> Opens(old(files), path, luck, 0) && luck.writeOk && luck.syncOk && luck.renameOk
      ensures ok ==> files == old(files)[path := contents]
      ensures !ok ==> Read(files, path) == Read(old(files), path)
      ensures !ok && luck.removeOk ==> files == old(files)
      ensures old(trace) <= trace
      ensures AllHarmless(old(files), path, contents, trace[|old(trace)|..])
    {
      var tmp := CreateUniqueTemp(path, luck);
      if tmp.None? {
        return false;
      }
      TempIsHarmless(old(files), path, contents, tmp.value, []);
      ok := WriteTemp(path, tmp.value, contents, luck, old(files));
      if ok || !luck.removeOk {
        return;
      }
      Remove(tmp.value);
      assert files == old(files);
      assert OnlyTemp(old(files), path, files, tmp.value);
    }

    /** Fills the temporary file and publishes it under the target's name. */
    method WriteTemp(path: string, tmp: string, contents: Bytes, luck: Luck, ghost before: Files) returns (ok: bool)
      requires files == before[tmp := []] && tmp !in before && tmp != path
      modifies this
      ensures ok <==> luck.writeOk && luck.syncOk && luck.renameOk
      ensures if ok then files == before[path := contents] else tmp in files && files == before[tmp := files[tmp]]
      ensures old(trace) <= trace && AllHarmless(before, path, contents, trace[|old(trace)|..])
    {
      Fill(path, tmp, contents, luck, before);
      if !luck.writeOk || !luck.syncOk || !luck.renameOk {
        return false;
      }
      Rename(tmp, path);
      assert files == before[path := contents];
      assert OnlyTemp(before, path, files, tmp);
      return true;
    }

    /** Writes the contents, which a reader of the temporary file may see half done. */
    method Fill(path: string, tmp: string, contents: Bytes, luck: Luck, ghost before: Files)
      requires files == before[tmp := []] && tmp !in before && tmp != path
      modifies this
      ensures tmp in files && files == before[tmp := files[tmp]] && (luck.writeOk ==> files[tmp] == contents)
      ensures old(trace) <= trace && AllHarmless(before, path, contents, trace[|old(trace)|..])
    {
      var begun := contents[..Min(luck.written, |contents|)];
      Put(tmp, begun);
      assert files == before[tmp := begun];
      TempIsHarmless(before, path, contents, tmp, begun);
      if luck.writeOk {
        Put(tmp, contents);
        assert files == before[tmp := contents];
        TempIsHarmless(before, path, contents, tmp, contents);
      }
    }
  }

  lemma {:induction false} TempIsHarmless(before: Files, path: string, contents: Bytes, tmp: string, data: Bytes)
    requires tmp !in before && tmp != path
    ensures Harmless(before, path, contents, before[tmp := data])
  {
    assert OnlyTemp(before, path, before[tmp := data], tmp);
  }
}
