/** Replacing and creating the configuration file, over a directory of names and the
    files they link to: replace_with_backup and write_atomic of scripts/configure.py. */
module ReplaceFile {
  import opened Wrappers
  import opened Numbering

  datatype Fs = Fs(names: map<string, nat>, data: map<nat, string>)

  /** What ends a call early: an instance of Exception, or an interrupt, which is none. */
  datatype Kind = Error | Interrupt

  /** What happens to one system call. An interrupt can come just after its effect. */
  datatype Fault = Fine | Fails | StopBefore | StopAfter

  datatype Return = Done | Missing | Exists | Raised(kind: Kind)

  predicate Linked(fs: Fs) {
    forall n :: n in fs.names ==> fs.names[n] in fs.data
  }

  /** A system call that should turn `before` into `target` has returned r. */
  predicate Called(before: Fs, target: Fs, r: Return, after: Fs) {
    if r == Done then after == target
    else if r == Raised(Interrupt) then after == before || after == target
    else after == before
  }

  /** One directory. `faults` says what goes wrong with the coming calls, and `trace`
      records every state, so that stopping at any call leaves one of its entries. */
  class Disk {
    var names: map<string, nat>
    var data: map<nat, string>
    var next: nat
    var faults: seq<Fault>
    ghost var trace: seq<Fs>

    ghost function Now(): Fs
      reads this
    {
      Fs(names, data)
    }

    ghost predicate Valid()
      reads this
    {
      Linked(Now()) && forall i :: i in data ==> i < next
    }

    method NextFault() returns (f: Fault)
      modifies this`faults
    {
      if faults == [] {
        f := Fine;
      } else {
        f := faults[0];
        faults := faults[1..];
      }
    }

    /** A call with no effect on names or contents: chmod, fsync, open, close, stat. */
    method Touch() returns (r: Return)
      requires Valid()
      modifies this
      ensures Valid() && Now() == old(Now()) && trace == old(trace) + [Now()]
      ensures r == Done || r.Raised?
    {
      var f := NextFault();
      r := if f == Fine then Done else if f == Fails then Raised(Error) else Raised(Interrupt);
      trace := trace + [Now()];
    }

    method Stat(name: string) returns (r: Return, found: bool)
      requires Valid()
      modifies this
      ensures Valid() && Now() == old(Now()) && trace == old(trace) + [Now()]
      ensures r == Done || r.Raised?
      ensures r == Done ==> (found <==> name in names)
    {
      r := Touch();
      found := name in names;
    }

    /** mkstemp: a new empty file under an unused name. */
    method MkTemp(name: string) returns (r: Return, file: nat)
      requires Valid()
      modifies this
      ensures Valid() && trace == old(trace) + [Now()]
      ensures file !in old(data) && (r == Done || r.Raised?)
      ensures Called(old(Now()), Fs(old(names)[name := file], old(data)[file := ""]), r, Now())
      ensures old(name in names) ==> r != Done && Now() == old(Now())
    {
      var f := NextFault();
      file := next;
      r := if f == Fails then Raised(Error) else if f == Fine then Done else Raised(Interrupt);
      if name in names && r == Done {
        r := Raised(Error);
      } else if name !in names && (f == Fine || f == StopAfter) {
        names, data, next := names[name := file], data[file := ""], next + 1;
      }
      trace := trace + [Now()];
    }

    method Write(file: nat, text: string) returns (r: Return)
      requires Valid() && file in data
      modifies this
      ensures Valid() && trace == old(trace) + [Now()]
      ensures r == Done || r.Raised?
      ensures Called(old(Now()), Fs(old(names), old(data)[file := old(data[file]) + text]), r, Now())
    {
      var f := NextFault();
      r := if f == Fails then Raised(Error) else if f == Fine then Done else Raised(Interrupt);
      if f == Fine || f == StopAfter {
        data := data[file := data[file] + text];
      }
      trace := trace + [Now()];
    }

    /** link never replaces a name. */
    method Link(source: string, name: string) returns (r: Return)
      requires Valid()
      modifies this
      ensures Valid() && trace == old(trace) + [Now()]
      ensures r == Missing ==> old(source !in names)
      ensures r == Exists ==> old(name in names)
      ensures r == Done ==> old(source in names && name !in names)
      ensures old(source !in names || name in names) ==> Now() == old(Now())
      ensures old(source in names) ==>
              Called(old(Now()), Fs(old(names)[name := old(names[source])], old(data)), r, Now())
    {
      var f := NextFault();
      r := if f == Fails then Raised(Error) else if f == Fine then Done else Raised(Interrupt);
      if f == Fine && source !in names {
        r := Missing;
      } else if f == Fine && name in names {
        r := Exists;
      } else if source in names && name !in names && (f == Fine || f == StopAfter) {
        names := names[name := names[source]];
      }
      trace := trace + [Now()];
    }

    /** rename over whatever has that name. */
    method Replace(source: string, name: string) returns (r: Return)
      requires Valid() && source in names
      modifies this
      ensures Valid() && trace == old(trace) + [Now()]
      ensures r == Done || r.Raised?
      ensures Called(old(Now()), Fs((old(names) - {source})[name := old(names[source])], old(data)), r, Now())
    {
      var f := NextFault();
      r := if f == Fails then Raised(Error) else if f == Fine then Done else Raised(Interrupt);
      if f == Fine || f == StopAfter {
        names := (names - {source})[name := names[source]];
      }
      trace := trace + [Now()];
    }

    method Unlink(name: string) returns (r: Return)
      requires Valid()
      modifies this
      ensures Valid() && trace == old(trace) + [Now()]
      ensures r == Done || r == Missing || r.Raised?
      ensures r == Missing ==> old(name !in names)
      ensures Called(old(Now()), Fs(old(names) - {name}, old(data)), r, Now())
    {
      var f := NextFault();
      r := if f == Fails then Raised(Error) else if f == Fine then Done else Raised(Interrupt);
      if f == Fine && name !in names {
        r := Missing;
      } else if f == Fine || f == StopAfter {
        names := names - {name};
      }
      trace := trace + [Now()];
    }
  }

  function Flat(chunks: seq<string>): string {
    if chunks == [] then "" else Flat(chunks[..|chunks| - 1]) + chunks[|chunks| - 1]
  }

  // ----- replace_with_backup -----

  /** One replacement: the directory before it, the file replaced, and the new text. */
  datatype Job = Job(start: Fs, dest: string, stamp: string, text: string)

  predicate Holds(fs: Fs, name: string, text: string) {
    name in fs.names && fs.names[name] in fs.data && fs.data[fs.names[name]] == text
  }

  function Backup(dest: string, stamp: string, k: nat): string {
    if k == 0 then dest + ".backup-" + stamp else Numbered(dest + ".backup-" + stamp + "-", k)
  }

  ghost predicate JobOk(j: Job) {
    Linked(j.start) && j.dest in j.start.names
  }

  function OldText(j: Job): string
    requires j.dest in j.start.names && j.start.names[j.dest] in j.start.data
  {
    j.start.data[j.start.names[j.dest]]
  }

  /** The destination holds the complete old or the complete new text, the old text is
      there under the destination or a backup name, and no other file is touched. */
  ghost predicate Kept(j: Job, fs: Fs)
    requires JobOk(j)
  {
    && (Holds(fs, j.dest, OldText(j)) || (Holds(fs, j.dest, j.text) && HasBackup(j, fs)))
    && (forall n :: n in j.start.names && n != j.dest ==> SameFile(j.start, fs, n))
  }

  ghost predicate HasBackup(j: Job, fs: Fs)
    requires JobOk(j)
  {
    exists k: nat :: Holds(fs, Backup(j.dest, j.stamp, k), OldText(j))
  }

  ghost predicate SameFile(start: Fs, fs: Fs, n: string)
    requires Linked(start) && n in start.names
  {
    n in fs.names && fs.names[n] == start.names[n] && Holds(fs, n, start.data[start.names[n]])
  }

  /** Every state since `was` is a good one to stop in. */
  ghost predicate Traced(was: seq<Fs>, trace: seq<Fs>, j: Job)
    requires JobOk(j)
  {
    was <= trace && forall i :: |was| <= i < |trace| ==> Kept(j, trace[i])
  }

  /** The states of a replacement: before the backup is linked, after, and replaced. */
  function Drafted(start: Fs, temp: string, file: nat, s: string): Fs {
    Fs(start.names[temp := file], start.data[file := s])
  }

  ghost predicate IsDraft(fs: Fs, start: Fs, temp: string, file: nat) {
    exists s :: fs == Drafted(start, temp, file, s)
  }

  ghost predicate Drafting(was: seq<Fs>, trace: seq<Fs>, start: Fs, temp: string, file: nat) {
    was <= trace && forall i :: |was| <= i < |trace| ==> IsDraft(trace[i], start, temp, file)
  }

  function BackedUp(j: Job, temp: string, file: nat, backup: string): Fs
    requires j.dest in j.start.names
  {
    Fs(j.start.names[temp := file][backup := j.start.names[j.dest]], j.start.data[file := j.text])
  }

  function Replaced(j: Job, file: nat, backup: string): Fs
    requires j.dest in j.start.names
  {
    Fs(j.start.names[backup := j.start.names[j.dest]][j.dest := file], j.start.data[file := j.text])
  }

  ghost predicate IsBackup(j: Job, backup: string) {
    exists k: nat :: backup == Backup(j.dest, j.stamp, k)
  }

  /** k is the least number whose backup name is unused. */
  predicate LeastBackup(names: map<string, nat>, dest: string, stamp: string, k: nat) {
    && Backup(dest, stamp, k) !in names
    && (forall i: nat :: i < k ==> Backup(dest, stamp, i) in names)
  }

  ghost predicate FirstUnused(fs: Fs, dest: string, stamp: string, backup: string) {
    exists k: nat :: backup == Backup(dest, stamp, k) && LeastBackup(fs.names, dest, stamp, k)
  }

  /** Everything as before, but the destination holds the new text and the backup is the
      old file. */
  ghost predicate ReplacedFrom(before: Fs, after: Fs, dest: string, backup: string, text: string)
    requires dest in before.names
  {
    && after.names.Keys == before.names.Keys + {backup} && backup != dest
    && Holds(after, dest, text) && after.names[backup] == before.names[dest]
    && (forall n :: n in before.names && n != dest && n != backup ==> after.names[n] == before.names[n])
    && (forall i :: i in before.data ==> i in after.data && after.data[i] == before.data[i])
  }

  ghost predicate Fresh(j: Job, temp: string, file: nat, backup: string) {
    && JobOk(j) && temp !in j.start.names && file !in j.start.data
    && backup !in j.start.names && IsBackup(j, backup)
  }

  lemma DraftedIsKept(j: Job, names: map<string, nat>, file: nat, s: string)
    requires JobOk(j) && file !in j.start.data
    requires forall n :: n in j.start.names ==> n in names && names[n] == j.start.names[n]
    ensures Kept(j, Fs(names, j.start.data[file := s]))
  {
  }

  lemma ReplacedIsKept(j: Job, temp: string, file: nat, backup: string)
    requires Fresh(j, temp, file, backup)
    ensures Kept(j, Replaced(j, file, backup))
  {
    var k: nat :| backup == Backup(j.dest, j.stamp, k);
    assert Holds(Replaced(j, file, backup), Backup(j.dest, j.stamp, k), OldText(j));
  }

  /** The search for an unused backup name. */
  method FindBackup(disk: Disk, dest: string, stamp: string, ghost j: Job)
    returns (raised: Option<Kind>, backup: string)
    requires disk.Valid() && JobOk(j) && Kept(j, disk.Now()) && j.dest == dest && j.stamp == stamp
    modifies disk
    ensures disk.Valid() && disk.Now() == old(disk.Now()) && Traced(old(disk.trace), disk.trace, j)
    ensures raised.None? ==> FirstUnused(disk.Now(), dest, stamp, backup)
  {
    var prefix := dest + ".backup-" + stamp;
    backup := prefix;
    var suffix := 1;
    while true
      invariant suffix >= 1 && backup == Backup(dest, stamp, suffix - 1)
      invariant disk.Valid() && disk.Now() == old(disk.Now()) && Traced(old(disk.trace), disk.trace, j)
      invariant suffix > 1 ==> TakenUpTo(disk.names.Keys, prefix + "-", 1, suffix - 1) && prefix in disk.names
      decreases |disk.names.Keys| + 2 - suffix
    {
      var r, found := disk.Stat(backup);
      if r.Raised? {
        raised := Some(r.kind);
        return;
      }
      if !found {
        assert LeastBackup(disk.names, dest, stamp, suffix - 1);
        raised := None;
        return;
      }
      backup := Numbered(prefix + "-", suffix);
      TakenIsBounded(disk.names.Keys, prefix + "-", 1, suffix);
      suffix := suffix + 1;
    }
  }

  /** How far an attempt got. */
  datatype Progress = Draft(s: string) | Saved | Swapped

  function StateAt(j: Job, temp: string, file: nat, backup: string, p: Progress): Fs
    requires j.dest in j.start.names
  {
    match p
    case Draft(s) => Drafted(j.start, temp, file, s)
    case Saved => BackedUp(j, temp, file, backup)
    case Swapped => Replaced(j, file, backup)
  }

  lemma StateIsKept(j: Job, temp: string, file: nat, backup: string, p: Progress)
    requires Fresh(j, temp, file, backup) && (p.Draft? || temp != backup)
    ensures Kept(j, StateAt(j, temp, file, backup, p))
  {
    match p
    case Draft(s) => DraftedIsKept(j, j.start.names[temp := file], file, s);
    case Saved => DraftedIsKept(j, j.start.names[temp := file][backup := j.start.names[j.dest]], file, j.text);
    case Swapped => ReplacedIsKept(j, temp, file, backup);
  }

  lemma TracedMore(was: seq<Fs>, trace: seq<Fs>, more: seq<Fs>, j: Job)
    requires JobOk(j) && Traced(was, trace, j) && Traced(trace, more, j)
    ensures Traced(was, more, j)
  {
  }

  lemma DraftsAreKept(was: seq<Fs>, trace: seq<Fs>, j: Job, temp: string, file: nat)
    requires JobOk(j) && temp !in j.start.names && file !in j.start.data
    requires Drafting(was, trace, j.start, temp, file)
    ensures Traced(was, trace, j)
  {
    forall i | |was| <= i < |trace| ensures Kept(j, trace[i]) {
      var s :| trace[i] == Drafted(j.start, temp, file, s);
      DraftedIsKept(j, j.start.names[temp := file], file, s);
    }
  }

  lemma DraftIsOne(start: Fs, temp: string, file: nat, s: string)
    ensures IsDraft(Drafted(start, temp, file, s), start, temp, file)
  {
  }

  /** Writing the temporary file, up to fsync. */
  method WriteDraft(disk: Disk, file: nat, chunks: seq<string>, ghost start: Fs, ghost temp: string)
    returns (raised: Option<Kind>, ghost s: string)
    requires disk.Valid() && disk.Now() == Drafted(start, temp, file, "")
    modifies disk
    ensures disk.Valid() && Drafting(old(disk.trace), disk.trace, start, temp, file)
    ensures disk.Now() == Drafted(start, temp, file, s)
    ensures raised.None? ==> s == Flat(chunks)
  {
    hide IsDraft;
    s := "";
    DraftIsOne(start, temp, file, s);
    var r := disk.Touch();
    if r.Raised? { return Some(r.kind), s; }
    for i := 0 to |chunks|
      invariant disk.Valid() && Drafting(old(disk.trace), disk.trace, start, temp, file)
      invariant s == Flat(chunks[..i]) && disk.Now() == Drafted(start, temp, file, s)
    {
      assert chunks[..i + 1][..i] == chunks[..i];
      ghost var more := s + chunks[i];
      DraftIsOne(start, temp, file, s);
      DraftIsOne(start, temp, file, more);
      r := disk.Write(file, chunks[i]);
      assert Drafted(start, temp, file, s).data[file := more] == Drafted(start, temp, file, more).data;
      s := disk.data[file];
      assert disk.Now() == Drafted(start, temp, file, s);
      if r.Raised? { return Some(r.kind), s; }
    }
    assert chunks[..|chunks|] == chunks;
    DraftIsOne(start, temp, file, s);
    r := disk.Touch();
    raised := if r.Raised? then Some(r.kind) else None;
  }

  /** Opening, syncing and closing the directory. */
  method SyncDirectory(disk: Disk, ghost j: Job) returns (raised: Option<Kind>)
    requires disk.Valid() && JobOk(j) && Kept(j, disk.Now())
    modifies disk
    ensures disk.Valid() && disk.Now() == old(disk.Now()) && Traced(old(disk.trace), disk.trace, j)
  {
    var r := disk.Touch();
    if r.Raised? { return Some(r.kind); }
    r := disk.Touch();
    var closed := disk.Touch();
    if closed.Raised? {
      r := closed;
    }
    raised := if r.Raised? then Some(r.kind) else None;
  }

  /** Linking the backup, replacing the destination and syncing the directory. The flags
      are those of the source; an interrupt can leave them behind the progress made. */
  method Swap(disk: Disk, dest: string, temp: string, backup: string, ghost j: Job, ghost file: nat)
    returns (raised: Option<Kind>, linkedBackup: bool, replaced: bool, ghost p: Progress)
    requires disk.Valid() && Fresh(j, temp, file, backup) && j.dest == dest
    requires disk.Now() == Drafted(j.start, temp, file, j.text)
    modifies disk
    ensures disk.Valid() && Traced(old(disk.trace), disk.trace, j)
    ensures disk.Now() == StateAt(j, temp, file, backup, p) && (p.Draft? ==> p.s == j.text)
    ensures raised.None? ==> p == Swapped
    ensures raised == Some(Error) ==> (linkedBackup <==> !p.Draft?) && (replaced <==> p.Swapped?)
    ensures temp == backup ==> p.Draft?
  {
    linkedBackup, replaced, p := false, false, Draft(j.text);
    DraftedIsKept(j, disk.names, file, j.text);
    if temp != backup {
      StateIsKept(j, temp, file, backup, Saved);
      StateIsKept(j, temp, file, backup, Swapped);
      SwapIsReplaced(j, temp, file, backup);
    }
    var r := disk.Link(dest, backup);
    if temp != backup && disk.Now() == StateAt(j, temp, file, backup, Saved) {
      p := Saved;
    }
    if r.Raised? { return Some(r.kind), linkedBackup, replaced, p; }
    if r != Done { return Some(Error), linkedBackup, replaced, p; }
    linkedBackup := true;
    r := disk.Replace(temp, dest);
    if disk.Now() == StateAt(j, temp, file, backup, Swapped) {
      p := Swapped;
    }
    if r.Raised? { return Some(r.kind), linkedBackup, replaced, p; }
    replaced := true;
    raised := SyncDirectory(disk, j);
  }

  /** Renaming the temporary file over the destination takes the saved state to the replaced
      one, and the three states differ. */
  lemma SwapIsReplaced(j: Job, temp: string, file: nat, backup: string)
    requires Fresh(j, temp, file, backup) && temp != backup
    ensures
      var saved := BackedUp(j, temp, file, backup);
      && Fs((saved.names - {temp})[j.dest := file], saved.data) == Replaced(j, file, backup)
      && saved.names != Drafted(j.start, temp, file, j.text).names
      && saved.names != Replaced(j, file, backup).names
      && saved.names == Drafted(j.start, temp, file, j.text).names[backup := j.start.names[j.dest]]
  {
    var saved := BackedUp(j, temp, file, backup);
    assert backup in saved.names && backup !in Drafted(j.start, temp, file, j.text).names;
    assert temp in saved.names && temp !in Replaced(j, file, backup).names;
    assert (saved.names - {temp})[j.dest := file] == Replaced(j, file, backup).names;
  }

  /** Unlinking that takes a missing file for done. */
  method Discard(disk: Disk, name: string, ghost j: Job) returns (raised: Option<Kind>)
    requires disk.Valid() && JobOk(j)
    requires Kept(j, disk.Now()) && Kept(j, Fs(disk.names - {name}, disk.data))
    modifies disk
    ensures disk.Valid() && Kept(j, disk.Now()) && Traced(old(disk.trace), disk.trace, j)
    ensures disk.data == old(disk.data)
    ensures disk.names == old(disk.names) || disk.names == old(disk.names) - {name}
    ensures raised.None? ==> disk.names == old(disk.names) - {name}
    ensures raised == Some(Error) ==> disk.names == old(disk.names)
  {
    var r := disk.Unlink(name);
    raised := if r.Raised? then Some(r.kind) else None;
  }

  /** The except clause: an Exception before the replacement removes the backup. q is what
      is left of the progress. */
  method Handle(disk: Disk, dest: string, backup: string, kind: Kind, linkedBackup: bool, replaced: bool,
      ghost j: Job, ghost temp: string, ghost file: nat, ghost p: Progress)
    returns (raised: Option<Kind>, ghost q: Progress)
    requires disk.Valid() && Fresh(j, temp, file, backup) && (p.Draft? || temp != backup)
    requires j.dest == dest && disk.Now() == StateAt(j, temp, file, backup, p)
    requires kind == Error ==> (linkedBackup <==> !p.Draft?) && (replaced <==> p.Swapped?)
    modifies disk
    ensures disk.Valid() && Traced(old(disk.trace), disk.trace, j)
    ensures disk.Now() == StateAt(j, temp, file, backup, q)
    ensures q == p || (kind == Error && p.Saved? && q.Draft?)
    ensures raised.None? && kind == Error && p.Saved? ==> q.Draft?
  {
    raised, q := None, p;
    StateIsKept(j, temp, file, backup, p);
    if kind == Error && linkedBackup && !replaced {
      var r, found := disk.Stat(dest);
      if r.Raised? { return Some(r.kind), q; }
      assert (j.start.names[temp := file][backup := j.start.names[j.dest]]) - {backup} == j.start.names[temp := file];
      DraftedIsKept(j, j.start.names[temp := file], file, j.text);
      if found {
        raised := Discard(disk, backup, j);
        if disk.Now() == Drafted(j.start, temp, file, j.text) {
          q := Draft(j.text);
        }
      }
    }
  }

  /** The names once the temporary one is gone. */
  function Cleaned(j: Job, file: nat, backup: string, p: Progress): map<string, nat>
    requires j.dest in j.start.names
  {
    match p
    case Draft(_) => j.start.names
    case Saved => j.start.names[backup := j.start.names[j.dest]]
    case Swapped => Replaced(j, file, backup).names
  }

  lemma CleanedIsKept(j: Job, temp: string, file: nat, backup: string, p: Progress)
    requires Fresh(j, temp, file, backup) && (p.Draft? || temp != backup)
    ensures
      var state := StateAt(j, temp, file, backup, p);
      && state.names - {temp} == Cleaned(j, file, backup, p)
      && Kept(j, Fs(state.names - {temp}, state.data))
  {
    var state := StateAt(j, temp, file, backup, p);
    assert state.names - {temp} == Cleaned(j, file, backup, p);
    match p
    case Draft(s) => DraftedIsKept(j, j.start.names, file, s);
    case Saved => DraftedIsKept(j, j.start.names[backup := j.start.names[j.dest]], file, j.text);
    case Swapped => ReplacedIsKept(j, temp, file, backup);
  }

  /** The try statement with its handlers, on a new temporary file. `raises` lists what was
      raised in it, and p how far it got. */
  method TryReplace(disk: Disk, dest: string, temp: string, file: nat, backup: string, chunks: seq<string>,
      ghost j: Job)
    returns (raised: Option<Kind>, ghost raises: seq<Kind>, ghost p: Progress)
    requires disk.Valid() && Fresh(j, temp, file, backup) && j.dest == dest && j.text == Flat(chunks)
    requires disk.Now() == Drafted(j.start, temp, file, "")
    modifies disk
    ensures disk.Valid() && Traced(old(disk.trace), disk.trace, j)
    ensures raised.None? <==> raises == []
    ensures raised.None? ==> p == Swapped && disk.Now() == Replaced(j, file, backup)
    ensures p.Swapped? ==> disk.data == j.start.data[file := j.text]
    ensures |raises| == 1 ==>
              disk.names == Cleaned(j, file, backup, if p.Saved? && raises[0] == Error then Draft("") else p)
  {
    hide Kept, Flat;
    var linkedBackup, replaced := false, false;
    ghost var s, q;
    raised, s := WriteDraft(disk, file, chunks, j.start, temp);
    DraftsAreKept(old(disk.trace), disk.trace, j, temp, file);
    p := Draft(s);
    if raised.None? {
      raised, linkedBackup, replaced, p := Swap(disk, dest, temp, backup, j, file);
    }
    raises := if raised.Some? then [raised.value] else [];
    q := p;
    if raised.Some? {
      var handling;
      handling, q := Handle(disk, dest, backup, raised.value, linkedBackup, replaced, j, temp, file, p);
      if handling.Some? {
        raised, raises := handling, raises + [handling.value];
      }
    }
    StateIsKept(j, temp, file, backup, q);
    CleanedIsKept(j, temp, file, backup, q);
    var cleaning := Discard(disk, temp, j);
    if cleaning.Some? {
      raised, raises := cleaning, raises + [cleaning.value];
    }
  }

  lemma StartIsKept(j: Job)
    ensures JobOk(j) ==> Kept(j, j.start)
  {
  }

  lemma ReplacedIsReplacedFrom(j: Job, temp: string, file: nat, backup: string)
    requires Fresh(j, temp, file, backup)
    ensures ReplacedFrom(j.start, Replaced(j, file, backup), j.dest, backup, j.text)
  {
  }

  /** replace_with_backup. The flags say whether the backup was linked and the destination
      replaced, and `raises` lists all exceptions, the last of which is the one that the
      caller sees. The new text comes in chunks, one for each write. */
  method ReplaceWithBackup(disk: Disk, dest: string, stamp: string, temp: string, chunks: seq<string>)
    returns (result: Result<string, Kind>, ghost raises: seq<Kind>, ghost backedUp: bool, ghost replaced: bool)
    requires disk.Valid()
    modifies disk
    ensures disk.Valid() && (result.Ok? <==> raises == [])
    ensures dest !in old(disk.names) ==> result.Err? && disk.Now() == old(disk.Now())
    // stopping anywhere
    ensures dest in old(disk.names) ==>
              Traced(old(disk.trace), disk.trace, Job(old(disk.Now()), dest, stamp, Flat(chunks)))
    // returning
    ensures result.Ok? ==>
              && dest in old(disk.names) && backedUp && replaced
              && FirstUnused(old(disk.Now()), dest, stamp, result.value)
              && ReplacedFrom(old(disk.Now()), disk.Now(), dest, result.value, Flat(chunks))
    // one exception
    ensures raises == [Error] && !replaced ==> disk.names == old(disk.names)
    ensures backedUp || replaced ==> dest in old(disk.names)
    ensures raises == [Interrupt] && !replaced && backedUp ==>
              exists b :: FirstUnused(old(disk.Now()), dest, stamp, b)
                && disk.names == old(disk.names)[b := old(disk.names[dest])]
    ensures raises == [Interrupt] && !replaced && !backedUp ==> disk.names - {temp} == old(disk.names) - {temp}
    ensures |raises| == 1 && replaced ==>
              exists b :: FirstUnused(old(disk.Now()), dest, stamp, b)
                && ReplacedFrom(old(disk.Now()), disk.Now(), dest, b, Flat(chunks))
  {
    hide Holds, SameFile, Flat;
    backedUp, replaced := false, false;
    ghost var j := Job(disk.Now(), dest, stamp, Flat(chunks));
    StartIsKept(j);
    var mode, there := disk.Stat(dest);
    if mode.Raised? { return Err(mode.kind), [mode.kind], false, false; }
    if !there { return Err(Error), [Error], false, false; }
    var searching, backup := FindBackup(disk, dest, stamp, j);
    if searching.Some? { return Err(searching.value), [searching.value], false, false; }
    var r, file := disk.MkTemp(temp);
    DraftedIsKept(j, disk.names, file, "");
    ghost var sofar := disk.trace;
    assert Traced(old(disk.trace), sofar, j);
    if r.Raised? { return Err(r.kind), [r.kind], false, false; }
    ghost var p;
    var raised;
    raised, raises, p := TryReplace(disk, dest, temp, file, backup, chunks, j);
    backedUp, replaced := !p.Draft?, p.Swapped?;
    TracedMore(old(disk.trace), sofar, disk.trace, j);
    ReplacedIsReplacedFrom(j, temp, file, backup);
    assert FirstUnused(old(disk.Now()), dest, stamp, backup);
    result := if raised.Some? then Err(raised.value) else Ok(backup);
  }

  // ----- write_atomic -----

  /** The files there before are as they were, and the destination, if it is new, holds the
      complete text. */
  ghost predicate NothingLost(fs: Fs, start: Fs, dest: string, temp: string, text: string)
    requires Linked(start)
  {
    && (forall n :: n in start.names ==> SameFile(start, fs, n))
    && (dest in fs.names && dest !in start.names && dest != temp ==> Holds(fs, dest, text))
  }

  ghost predicate NeverLost(was: seq<Fs>, trace: seq<Fs>, start: Fs, dest: string, temp: string, text: string)
    requires Linked(start)
  {
    was <= trace && forall i :: |was| <= i < |trace| ==> NothingLost(trace[i], start, dest, temp, text)
  }

  datatype Created = Created | AlreadyThere | CreateRaised(kind: Kind)

  lemma NeverLostMore(
      was: seq<Fs>, trace: seq<Fs>, more: seq<Fs>, start: Fs, dest: string, temp: string, text: string)
    requires Linked(start)
    requires NeverLost(was, trace, start, dest, temp, text) && NeverLost(trace, more, start, dest, temp, text)
    ensures NeverLost(was, more, start, dest, temp, text)
  {
    hide NothingLost;
  }

  lemma StartLosesNothing(start: Fs, dest: string, temp: string, text: string)
    requires Linked(start)
    ensures NothingLost(start, start, dest, temp, text)
  {
  }

  lemma DraftLosesNothing(start: Fs, dest: string, temp: string, file: nat, text: string)
    requires Linked(start) && temp !in start.names && file !in start.data
    ensures NothingLost(Drafted(start, temp, file, ""), start, dest, temp, text)
  {
  }

  lemma DraftsLoseNothing(was: seq<Fs>, trace: seq<Fs>, start: Fs, dest: string, temp: string, file: nat, text: string)
    requires Linked(start) && temp !in start.names && file !in start.data
    requires Drafting(was, trace, start, temp, file)
    ensures NeverLost(was, trace, start, dest, temp, text)
  {
    forall i | |was| <= i < |trace| ensures NothingLost(trace[i], start, dest, temp, text) {
      var s :| trace[i] == Drafted(start, temp, file, s);
    }
  }

  /** The directory once the draft is done: whether it is linked to the destination, and
      whether its temporary name is gone. */
  function Final(start: Fs, dest: string, temp: string, file: nat, s: string, linked: bool, gone: bool): Fs {
    var names := if linked then start.names[temp := file][dest := file] else start.names[temp := file];
    Fs(if gone then names - {temp} else names, start.data[file := s])
  }

  lemma FinalLosesNothing(
      start: Fs, dest: string, temp: string, file: nat, s: string, linked: bool, gone: bool, text: string)
    requires Linked(start) && temp !in start.names && file !in start.data
    requires linked ==> dest !in start.names && dest != temp && s == text
    ensures NothingLost(Final(start, dest, temp, file, s, linked, gone), start, dest, temp, text)
    ensures gone ==>
              Final(start, dest, temp, file, s, linked, gone).names
              == if linked then start.names[dest := file] else start.names
  {
    var fs := Final(start, dest, temp, file, s, linked, gone);
    assert gone ==> fs.names == if linked then start.names[dest := file] else start.names;
  }

  /** Linking the draft to the destination, and the finally clause. */
  method Publish(disk: Disk, dest: string, temp: string, draft: Option<Kind>, ghost start: Fs, ghost file: nat,
      ghost s: string, ghost text: string)
    returns (result: Created, ghost raises: seq<Kind>, ghost linked: bool)
    requires disk.Valid() && Linked(start) && temp !in start.names && file !in start.data
    requires disk.Now() == Drafted(start, temp, file, s) && (draft.None? ==> s == text)
    modifies disk
    ensures disk.Valid() && NeverLost(old(disk.trace), disk.trace, start, dest, temp, text)
    ensures linked ==> draft.None? && dest !in start.names && dest != temp
    ensures result.CreateRaised? <==> raises != []
    ensures result == Created ==> linked && disk.Now() == Final(start, dest, temp, file, s, true, true)
    ensures result == AlreadyThere ==> disk.names == start.names && (dest in start.names || dest == temp)
    ensures raises == [Error] && !linked && dest !in start.names && dest != temp ==> disk.names == start.names
  {
    raises := if draft.Some? then [draft.value] else [];
    var raised, already := draft, false;
    linked := false;
    if draft.None? {
      var r := disk.Link(temp, dest);
      already := r == Exists;
      linked := disk.Now() != Drafted(start, temp, file, s);
      if r.Raised? {
        raised, raises := Some(r.kind), [r.kind];
      }
    }
    assert disk.Now() == Final(start, dest, temp, file, s, linked, false);
    FinalLosesNothing(start, dest, temp, file, s, linked, false, text);
    FinalLosesNothing(start, dest, temp, file, s, linked, true, text);
    var u := disk.Unlink(temp);
    if u.Raised? {
      raised, raises := Some(u.kind), raises + [u.kind];
    }
    result := if raised.Some? then CreateRaised(raised.value) else if already then AlreadyThere else Created;
  }

  /** write_atomic never replaces a file, and whenever it stops the destination is absent
      or complete, unless the random temporary name is the destination itself. */
  method WriteAtomic(disk: Disk, dest: string, temp: string, chunks: seq<string>)
    returns (result: Created, ghost raises: seq<Kind>, ghost linked: bool)
    requires disk.Valid()
    modifies disk
    ensures disk.Valid() && (result.CreateRaised? <==> raises != [])
    ensures NeverLost(old(disk.trace), disk.trace, old(disk.Now()), dest, temp, Flat(chunks))
    ensures result == Created ==>
              && dest !in old(disk.names) && Holds(disk.Now(), dest, Flat(chunks))
              && disk.names == old(disk.names)[dest := disk.names[dest]]
    ensures result == AlreadyThere ==> disk.names == old(disk.names) && (dest in disk.names || dest == temp)
    ensures raises == [Error] && !linked && dest !in old(disk.names) && dest != temp ==> disk.names == old(disk.names)
  {
    hide NothingLost, Flat;
    ghost var start := disk.Now();
    StartLosesNothing(start, dest, temp, Flat(chunks));
    linked := false;
    var r, file := disk.MkTemp(temp);
    assert disk.Now() == start || disk.Now() == Drafted(start, temp, file, "");
    if temp !in start.names {
      DraftLosesNothing(start, dest, temp, file, Flat(chunks));
    }
    if r.Raised? { return CreateRaised(r.kind), [r.kind], false; }
    ghost var sofar := disk.trace;
    var draft;
    ghost var s;
    draft, s := WriteDraft(disk, file, chunks, start, temp);
    DraftsLoseNothing(sofar, disk.trace, start, dest, temp, file, Flat(chunks));
    NeverLostMore(old(disk.trace), sofar, disk.trace, start, dest, temp, Flat(chunks));
    ghost var drafted := disk.trace;
    result, raises, linked := Publish(disk, dest, temp, draft, start, file, s, Flat(chunks));
    NeverLostMore(old(disk.trace), drafted, disk.trace, start, dest, temp, Flat(chunks));
  }
}
