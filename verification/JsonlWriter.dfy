/**
 The telemetry writer over a directory whose operations may fail at any point:
 batches are appended to the active file, which is rotated before a batch that
 would not fit, and the oldest rotated files are removed.
 */
module JsonlWriter {
  import opened Prelude

  type Line = seq<byte>

  /** The directory: the active file, if it exists, and the rotated files, oldest first. */
  datatype Disk = Disk(active: Option<seq<byte>>, rotated: seq<seq<byte>>)

  /** How the system calls of one flush turn out; a write may stop after some bytes. */
  datatype Luck = Luck(close: bool, rename: bool, reopen: bool, create: bool, list: bool, removals: nat, writes: seq<Option<nat>>)

  function Joined(files: seq<seq<byte>>): seq<byte> {
    if files == [] then [] else Joined(files[..|files| - 1]) + Last(files)
  }

  lemma JoinedAppend(files: seq<seq<byte>>, f: seq<byte>)
    ensures Joined(files + [f]) == Joined(files) + f
  {
    assert (files + [f])[..|files|] == files;
  }

  function Active(d: Disk): seq<byte> {
    if d.active.Some? then d.active.value else []
  }

  /** The outcome of one `Write` on an open file: how many bytes went out, and whether that was all. */
  predicate WriteFails(luck: Luck, i: nat) {
    i < |luck.writes| && luck.writes[i].Some?
  }

  function BytesOut(luck: Luck, i: nat, line: Line): (n: nat)
    ensures n <= |line|
  {
    if i < |luck.writes| && luck.writes[i].Some? then Min(luck.writes[i].value, |line|) else |line|
  }

  /** The active file with bytes appended. */
  function Extended(d: Disk, bytes: seq<byte>): Disk {
    d.(active := Some(Active(d) + bytes))
  }

  lemma ExtendTwice(d: Disk, a: seq<byte>, b: seq<byte>)
    ensures Extended(Extended(d, a), b) == Extended(d, a + b)
    ensures d.active.Some? ==> Extended(d, []) == d
  {
    assert Active(d) + a + b == Active(d) + (a + b);
    assert Active(d) + [] == Active(d);
  }

  /** Everything ever written, in order: removed files, rotated files, the active file. */
  function StreamOf(removed: seq<seq<byte>>, d: Disk): seq<byte> {
    Joined(removed + d.rotated) + Active(d)
  }

  lemma ExtendedStream(removed: seq<seq<byte>>, d: Disk, bytes: seq<byte>)
    ensures StreamOf(removed, Extended(d, bytes)) == StreamOf(removed, d) + bytes
  {
    var j := Joined(removed + d.rotated);
    assert j + (Active(d) + bytes) == j + Active(d) + bytes;
  }

  /** Does the handle survive a rotation? */
  predicate Survives(luck: Luck) {
    luck.close && (if luck.rename then luck.create else luck.reopen)
  }

  /** How many of `n` rotated files the retention removes, and whether it gets through. */
  function Removals(n: nat, maxFiles: nat, luck: Luck): nat {
    if !luck.list || n <= maxFiles then 0 else Min(n - maxFiles, luck.removals)
  }

  predicate Retains(n: nat, maxFiles: nat, luck: Luck) {
    luck.list && n - maxFiles <= luck.removals
  }

  /** The running average of the entry size. */
  function Averaged(avg: nat, bytes: nat, written: nat): nat {
    if written > 0 && bytes > 0 then (avg + bytes / written) / 2 else avg
  }

  /** The average moves towards that of a batch, and never past it. */
  lemma AverageBetween(avg: nat, bytes: nat, written: nat)
    requires written > 0 && bytes > 0
    ensures avg <= bytes / written ==> avg <= Averaged(avg, bytes, written) <= bytes / written
    ensures bytes / written <= avg ==> bytes / written <= Averaged(avg, bytes, written) <= avg
    ensures avg + bytes / written - 1 <= 2 * Averaged(avg, bytes, written) <= avg + bytes / written
  {
  }

  /** What a write loop that reported `written` entries put out, with a piece of the next one. */
  function Output(lines: seq<Line>, written: nat, piece: Line): seq<byte>
    requires written <= |lines|
  {
    Joined(lines[..written]) + piece
  }

  lemma NothingOut(lines: seq<Line>, removed: seq<seq<byte>>, d: Disk)
    ensures Output(lines, 0, []) == []
    ensures StreamOf(removed, d) + [] == StreamOf(removed, d) && Active(d) + [] == Active(d)
  {
  }

  class JSONLWriter {
    const maxSize: nat
    const maxAge: int
    const maxFiles: nat
    var disk: Disk
    var fileOpen: bool
    var currentBytes: nat
    var fileCreated: int
    var avgEntrySize: nat
    ghost var removed: seq<seq<byte>> // files deleted by the retention, oldest first

    /** An open handle is the active file's, and `currentBytes` is that file's size. */
    ghost predicate Valid()
      reads this
    {
      fileOpen ==> disk.active.Some? && currentBytes == |disk.active.value|
    }

    ghost function Stream(): seq<byte>
      reads this
    {
      StreamOf(removed, disk)
    }

    /** `NewJSONLWriter` over what an earlier process left: its active file is resumed, its rotated files stay. */
    constructor (found: Disk, modTime: int, now: int, maxSize: nat, maxAge: int, maxFiles: nat)
      ensures Valid() && fileOpen && removed == []
      ensures disk == Disk(Some(Active(found)), found.rotated) && Stream() == StreamOf([], found)
      ensures fileCreated == if Active(found) == [] then now else modTime
      ensures this.maxSize == maxSize && this.maxAge == maxAge && this.maxFiles == maxFiles
    {
      this.maxSize, this.maxAge, this.maxFiles := maxSize, maxAge, maxFiles;
      disk, fileOpen, currentBytes := Disk(Some(Active(found)), found.rotated), true, |Active(found)|;
      fileCreated, avgEntrySize, removed := if |Active(found)| == 0 then now else modTime, 512, [];
    }

    predicate NeedsRotation(batchEstimate: nat, now: int)
      reads this
    {
      currentBytes + batchEstimate > maxSize || now - fileCreated > maxAge
    }

    predicate Rotates(lines: seq<Line>, now: int)
      reads this
    {
      lines != [] && NeedsRotation(|lines| * avgEntrySize, now)
    }

    /** `enforceRetention`: the oldest files beyond `maxFiles` go; a failing call stops it. */
    method EnforceRetention(luck: Luck) returns (ok: bool)
      modifies this`disk, this`removed
      ensures removed + disk.rotated == old(removed) + old(disk).rotated && disk.active == old(disk).active
      ensures old(removed) <= removed
      ensures ok == Retains(old(|disk.rotated|), maxFiles, luck) && (ok ==> |disk.rotated| <= maxFiles)
      ensures |disk.rotated| == old(|disk.rotated|) - Removals(old(|disk.rotated|), maxFiles, luck)
      ensures |disk.rotated| >= Min(old(|disk.rotated|), maxFiles)
    {
      if !luck.list { return false; }
      var excess := |disk.rotated| - maxFiles;
      var i := 0;
      while i < excess
        invariant disk.active == old(disk).active && removed + disk.rotated == old(removed) + old(disk).rotated
        invariant old(removed) <= removed
        invariant 0 <= i <= luck.removals && (i == 0 || i <= excess) && |disk.rotated| == old(|disk.rotated|) - i
      {
        if i >= luck.removals { return false; }
        removed := removed + [disk.rotated[0]];
        disk := disk.(rotated := disk.rotated[1..]);
        i := i + 1;
      }
      return true;
    }

    /** The active file under its rotated name. */
    method Shelve()
      modifies this`disk
      ensures disk == Disk(None, old(disk).rotated + [Active(old(disk))]) && Stream() == old(Stream())
    {
      JoinedAppend(removed + disk.rotated, Active(disk));
      assert removed + (disk.rotated + [Active(disk)]) == removed + disk.rotated + [Active(disk)];
      disk := Disk(None, disk.rotated + [Active(disk)]);
    }

    /** `rotate`: whatever fails on the way, no byte that was written is lost or moved out of order. */
    method Rotate(luck: Luck, now: int) returns (ok: bool)
      requires Valid()
      modifies this`disk, this`removed, this`fileOpen, this`currentBytes, this`fileCreated
      ensures Valid() && Stream() == old(Stream()) && old(removed) <= removed
      ensures Active(disk) == [] || disk.active == old(disk).active
      ensures fileOpen == (old(fileOpen) && Survives(luck))
      ensures fileOpen == (old(fileOpen) && luck.close && if luck.rename then luck.create else luck.reopen)
      ensures ok == (old(fileOpen) && luck.close && luck.rename && luck.create
                     && Retains(old(|disk.rotated|) + 1, maxFiles, luck))
      ensures ok ==> disk.active == Some([]) && |disk.rotated| <= maxFiles && fileCreated == now
      ensures !luck.close || !luck.rename ==> disk == old(disk)
      ensures !old(fileOpen) ==> !ok && !fileOpen && disk == old(disk) && removed == old(removed)
    {
      if !fileOpen { return false; }
      fileOpen := false;
      if !luck.close { return false; }
      if !luck.rename {
        fileOpen := luck.reopen;
        return false;
      }
      Shelve();
      if !luck.create { return false; }
      disk := disk.(active := Some([]));
      fileOpen, currentBytes, fileCreated := true, 0, now;
      ok := EnforceRetention(luck);
    }

    /** `os.File.Write`: on a closed handle nothing goes out. */
    method Write(luck: Luck, i: nat, line: Line) returns (n: nat, ok: bool)
      requires fileOpen ==> disk.active.Some?
      modifies this`disk
      ensures n == (if fileOpen then BytesOut(luck, i, line) else 0) && ok == (fileOpen && !WriteFails(luck, i))
      ensures disk == if fileOpen then Extended(old(disk), line[..n]) else old(disk)
    {
      if !fileOpen { return 0, false; }
      n, ok := BytesOut(luck, i, line), !WriteFails(luck, i);
      disk := Extended(disk, line[..n]);
    }

    /**
     The write loop of `Flush`: the entries reported written, and at most a
     piece of the next one, are appended to the one active file.
     */
    method WriteAll(luck: Luck, lines: seq<Line>) returns (written: nat, totalBytes: nat, ok: bool, ghost piece: Line)
      requires fileOpen ==> disk.active.Some?
      modifies this`disk
      ensures written <= |lines| && (ok ==> written == |lines| && piece == [])
      ensures !ok ==> written < |lines| && piece <= lines[written]
      ensures totalBytes == |Output(lines, written, piece)|
      ensures disk == if fileOpen then Extended(old(disk), Output(lines, written, piece)) else old(disk)
      ensures !fileOpen ==> written == 0 && piece == [] && ok == (lines == [])
    {
      written, totalBytes, piece, ok := 0, 0, [], true;
      ExtendTwice(disk, [], []);
      while written < |lines|
        invariant written <= |lines| && totalBytes == |Output(lines, written, [])|
        invariant disk == if fileOpen then Extended(old(disk), Output(lines, written, [])) else old(disk)
        invariant fileOpen ==> disk.active.Some?
        invariant !fileOpen ==> written == 0
      {
        var n;
        n, ok := Write(luck, written, lines[written]);
        totalBytes := totalBytes + n;
        ExtendTwice(old(disk), Output(lines, written, []), lines[written][..n]);
        assert Output(lines, written, []) + lines[written][..n] == Output(lines, written, lines[written][..n]);
        if !ok {
          piece := lines[written][..n];
          return;
        }
        JoinedAppend(lines[..written], lines[written]);
        assert lines[..written + 1] == lines[..written] + [lines[written]];
        assert Output(lines, written, lines[written][..n]) == Output(lines, written + 1, []);
        written := written + 1;
      }
      ok := true;
    }

    /** `Flush` once the file to write to is settled. */
    method AppendBatch(lines: seq<Line>, luck: Luck) returns (written: nat, ok: bool, ghost piece: Line)
      requires Valid()
      modifies this`disk, this`currentBytes, this`avgEntrySize
      ensures Valid() && written <= |lines| && (ok ==> written == |lines| && piece == [])
      ensures !ok ==> written < |lines| && piece <= lines[written]
      ensures disk == if fileOpen then Extended(old(disk), Output(lines, written, piece)) else old(disk)
      ensures !fileOpen ==> written == 0 && piece == [] && ok == (lines == [])
      ensures avgEntrySize == if ok then Averaged(old(avgEntrySize), |Output(lines, written, [])|, written)
                              else old(avgEntrySize)
    {
      var totalBytes;
      written, totalBytes, ok, piece := WriteAll(luck, lines);
      if ok && written > 0 && totalBytes > 0 {
        avgEntrySize := (avgEntrySize + totalBytes / written) / 2;
      }
      currentBytes := currentBytes + totalBytes;
    }

    /**
     `Flush`: what is reported written is exactly what was added, in order, at
     the end of everything written before; the batch is in one file, a new one
     if the batch rotates; a closed handle stays closed and takes nothing.
     */
    method Flush(lines: seq<Line>, luck: Luck, now: int) returns (written: nat, ok: bool, ghost piece: Line)
      requires Valid()
      modifies this
      ensures Valid() && written <= |lines| && (ok ==> written == |lines|)
      ensures piece == [] || (written < |lines| && piece <= lines[written])
      ensures !fileOpen ==> written == 0 && piece == []
      ensures Stream() == old(Stream()) + Output(lines, written, piece)
      ensures !old(Rotates(lines, now)) ==>
                && Active(disk) == Active(old(disk)) + Output(lines, written, piece)
                && disk.rotated == old(disk).rotated && fileCreated == old(fileCreated)
      ensures old(Rotates(lines, now)) && (ok || written > 0) ==>
                Active(disk) == Output(lines, written, piece) && |disk.rotated| <= maxFiles && fileCreated == now
      ensures avgEntrySize == if ok then Averaged(old(avgEntrySize), |Output(lines, written, [])|, written)
                              else old(avgEntrySize)
      ensures ok && lines != [] && maxAge >= 0 ==> now - fileCreated <= maxAge
      ensures ok && lines != [] ==>
                || Active(disk) == Output(lines, written, piece)
                || |Active(disk)| - |Output(lines, written, piece)| + |lines| * old(avgEntrySize) <= maxSize
      ensures old(currentBytes) + |lines| * old(avgEntrySize) <= maxSize && now - old(fileCreated) <= maxAge ==>
                disk.rotated == old(disk).rotated && fileCreated == old(fileCreated) && fileOpen == old(fileOpen)
      ensures fileOpen == (old(fileOpen) && (Survives(luck) || !old(Rotates(lines, now))))
      ensures !old(fileOpen) ==> disk == old(disk) && written == 0 && ok == (lines == [])
    {
      written, ok, piece := 0, true, [];
      NothingOut(lines, removed, disk);
      if |lines| == 0 { return; }
      if NeedsRotation(|lines| * avgEntrySize, now) {
        ok := Rotate(luck, now);
        if !ok { return; }
      }
      ghost var d := disk;
      written, ok, piece := AppendBatch(lines, luck);
      ExtendedStream(removed, d, Output(lines, written, piece));
      NothingOut(lines, removed, d);
    }

    /**
     A rotation that loses the handle silences the writer for good: however
     the later flushes' system calls turn out, none of them writes a byte.
     */
    method SilentAfterLostHandle(lines: seq<Line>, luck: Luck, now: int, later: seq<(seq<Line>, Luck, int)>)
      returns (reported: nat)
      requires Valid() && Rotates(lines, now) && !Survives(luck)
      modifies this
      ensures Valid() && !fileOpen && reported == 0 && Stream() == old(Stream())
    {
      var ok;
      ghost var piece;
      reported, ok, piece := Flush(lines, luck, now);
      for i := 0 to |later|
        invariant Valid() && !fileOpen && reported == 0 && Stream() == old(Stream())
      {
        var n;
        n, ok, piece := Flush(later[i].0, later[i].1, later[i].2);
        assert Output(later[i].0, 0, []) == [];
        reported := reported + n;
      }
    }
  }

  /** The rename fails and so does the reopening; every other call works. */
  const UNLUCKY := Luck(true, false, false, true, true, 0, [])

  /**
   "Later flushes still work" is false of a writer on an empty directory whose
   first rotation fails to rename and to reopen: it reports and writes nothing
   of `line` and of all later batches, even if every later call works.
   */
  method RenameLosesHandle(line: Line, later: seq<(seq<Line>, Luck, int)>) returns (w: JSONLWriter, reported: nat)
    ensures fresh(w) && w.Valid() && !w.fileOpen && reported == 0 && w.Stream() == []
  {
    w := new JSONLWriter(Disk(None, []), 0, 0, 0, 0, 3);
    assert Joined([]) == [] && w.Stream() == [];
    reported := w.SilentAfterLostHandle([line], UNLUCKY, 1, later);
  }
}
