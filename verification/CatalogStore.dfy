/**
 Replacing the catalog file (`store` and `load` of src/catalog.rs) under concurrent writers and
 readers, one system call at a time. Files are numbered, as inodes are, so that a file keeps its
 content and its readers after its name is given to another.

 The name of a writer's temporary file carries its process id. Here that name is whatever `naming`
 makes of the writer, and distinct writers having distinct ones is the assumption it is worth.
 */
module CatalogStore {
  import opened Wrappers
  import opened Automaton
  import opened Json
  import opened Utf8
  import opened Catalog
  import opened CatalogTheorems

  type Pid = nat

  type TempName = nat

  /** Where a `store` is: `Writing` has written `done` bytes of its text to the file `temp`. */
  datatype Writer =
    | Ready(text: Text)
    | Writing(text: Text, temp: nat, done: nat)
    | Discarding(temp: nat)
    | Stored(ok: bool)

  /**
   Where a `load` is: what it has read so far of the file it opened, or what it made of it. `seen`
   is how many catalogs had been renamed into place when it opened the path.
   */
  datatype Reader = Reading(file: nat, got: seq<byte>, seen: nat) | Loaded(text: Option<seq<byte>>, seen: nat)

  /**
   `contents` is every file there ever was, `target` what the catalog's path names, `temps` what
   each temporary path names, and `renamed` the texts that were moved into place.
   */
  datatype Disk = Disk(
    contents: map<nat, seq<byte>>,
    target: Option<nat>,
    naming: Pid -> TempName,
    temps: map<TempName, nat>,
    unused: nat,
    writers: map<Pid, Writer>,
    readers: map<nat, Reader>,
    renamed: seq<Text>
  )

  datatype Action =
    | BeginStore(pid: Pid, text: Text)
    | OpenTemp(pid: Pid)
    | WriteSome(pid: Pid, count: nat)
    | WriteFails(pid: Pid)
    | Rename(pid: Pid)
    | RenameFails(pid: Pid)
    | RemoveTemp(pid: Pid)
    | CrashWriter(pid: Pid)
    | OpenTarget(reader: nat)
    | ReadSome(reader: nat, count: nat)
    | ReadToEnd(reader: nat)

  predicate Enabled(d: Disk, a: Action) {
    match a
    case BeginStore(pid, _) => pid in d.writers ==> d.writers[pid].Stored?
    case OpenTemp(pid) => pid in d.writers && d.writers[pid].Ready?
    case WriteSome(pid, count) =>
      pid in d.writers && d.writers[pid].Writing? && 0 < count <= |d.writers[pid].text| - d.writers[pid].done
    case WriteFails(pid) => pid in d.writers && (d.writers[pid].Writing? || d.writers[pid].Ready?)
    case Rename(pid) =>
      pid in d.writers && d.writers[pid].Writing? && d.writers[pid].done == |d.writers[pid].text|
      && d.naming(pid) in d.temps
    case RenameFails(pid) =>
      pid in d.writers && d.writers[pid].Writing? && d.writers[pid].done == |d.writers[pid].text|
    case RemoveTemp(pid) => pid in d.writers && d.writers[pid].Discarding?
    case CrashWriter(pid) => pid in d.writers
    case OpenTarget(reader) => reader !in d.readers
    case ReadSome(reader, count) =>
      reader in d.readers && d.readers[reader].Reading? && d.readers[reader].file in d.contents
      && 0 < count <= |d.contents[d.readers[reader].file]| - |d.readers[reader].got|
    case ReadToEnd(reader) =>
      reader in d.readers && d.readers[reader].Reading? && d.readers[reader].file in d.contents
      && |d.readers[reader].got| >= |d.contents[d.readers[reader].file]|
  }

  function WriterAt(d: Disk, pid: Pid, writer: Writer): Disk {
    d.(writers := d.writers[pid := writer])
  }

  function ContentOf(d: Disk, file: nat): seq<byte> {
    if file in d.contents then d.contents[file] else []
  }

  /** A write at an offset. What lies outside it is kept, and a gap before it reads as zeros. */
  function Overwritten(before: seq<byte>, offset: nat, bytes: seq<byte>): seq<byte> {
    (if offset <= |before| then before[..offset] else before + seq(offset - |before|, _ => 0))
    + bytes
    + if offset + |bytes| < |before| then before[offset + |bytes|..] else []
  }

  function Do(d: Disk, a: Action): Disk
    requires Enabled(d, a)
  {
    match a
    case BeginStore(pid, text) => WriterAt(d, pid, Ready(text))
    case OpenTemp(pid) =>
      // Created if it is missing, emptied if an earlier writer of the same id left it behind.
      var name := d.naming(pid);
      var temp := if name in d.temps then d.temps[name] else d.unused;
      var unused := if name in d.temps then d.unused else d.unused + 1;
      WriterAt(d, pid, Writing(d.writers[pid].text, temp, 0))
        .(contents := d.contents[temp := []], temps := d.temps[name := temp], unused := unused)
    case WriteSome(pid, count) =>
      var Writing(text, temp, done) := d.writers[pid];
      WriterAt(d, pid, Writing(text, temp, done + count))
        .(contents := d.contents[temp := Overwritten(ContentOf(d, temp), done, text[done..done + count])])
    case WriteFails(pid) => WriterAt(d, pid, Stored(false))
    case Rename(pid) =>
      WriterAt(d, pid, Stored(true))
        .(target := Some(d.temps[d.naming(pid)]), temps := d.temps - {d.naming(pid)},
          renamed := d.renamed + [d.writers[pid].text])
    case RenameFails(pid) => WriterAt(d, pid, Discarding(d.writers[pid].temp))
    case RemoveTemp(pid) => WriterAt(d, pid, Stored(false)).(temps := d.temps - {d.naming(pid)})
    case CrashWriter(pid) => d.(writers := d.writers - {pid})
    case OpenTarget(reader) =>
      var seen := |d.renamed|;
      var found := if d.target == None then Loaded(None, seen) else Reading(d.target.value, [], seen);
      d.(readers := d.readers[reader := found])
    case ReadSome(reader, count) =>
      var Reading(file, got, seen) := d.readers[reader];
      d.(readers := d.readers[reader := Reading(file, got + d.contents[file][|got|..|got| + count], seen)])
    case ReadToEnd(reader) =>
      d.(readers := d.readers[reader := Loaded(Some(d.readers[reader].got), d.readers[reader].seen)])
  }

  function Take(d: Disk, a: Action): Option<Disk> {
    if Enabled(d, a) then Some(Do(d, a)) else None
  }

  // ---------------------------------------------------------------------------------------------
  // The invariant

  /** No two writers share a temporary path. */
  ghost predicate OwnNames(d: Disk) {
    forall p, q :: d.naming(p) == d.naming(q) ==> p == q
  }

  predicate Temporary(d: Disk, file: nat) {
    exists name :: name in d.temps && d.temps[name] == file
  }

  /** A temporary path never names the catalog, nor a file that another temporary path names. */
  predicate FilesConsistent(d: Disk) {
    && (forall file :: file in d.contents ==> file < d.unused)
    && (d.target.Some? ==> d.target.value in d.contents && !Temporary(d, d.target.value))
    && (forall name :: name in d.temps ==> d.temps[name] in d.contents)
    && (forall m, n :: m in d.temps && n in d.temps && d.temps[m] == d.temps[n] ==> m == n)
  }

  /** Before any of these stores and loads: a catalog or none, and files that crashes left behind. */
  ghost predicate Initial(d: Disk) {
    && d.writers == map[] && d.readers == map[] && d.renamed == []
    && OwnNames(d) && FilesConsistent(d)
  }

  /** A writer's temporary path names the file it writes, which holds what it has written so far. */
  predicate WriterConsistent(d: Disk, pid: Pid, writer: Writer) {
    writer.Writing? ==>
      && d.naming(pid) in d.temps && d.temps[d.naming(pid)] == writer.temp
      && writer.temp in d.contents
      && writer.done <= |writer.text| && d.contents[writer.temp] == writer.text[..writer.done]
  }

  predicate WritersConsistent(d: Disk) {
    forall pid :: pid in d.writers ==> WriterConsistent(d, pid, d.writers[pid])
  }

  /** What the catalog's path names, to somebody who reads it whole. */
  function Catalogued(d: Disk): Option<seq<byte>> {
    if d.target.Some? && d.target.value in d.contents then Some(d.contents[d.target.value]) else None
  }

  /** The catalog after `k` renames: what there was at first, or the whole text of one store. */
  function Version(first: Disk, d: Disk, k: nat): Option<seq<byte>>
    requires k <= |d.renamed|
  {
    if k == 0 then Catalogued(first) else Some(d.renamed[k - 1])
  }

  predicate TargetConsistent(first: Disk, d: Disk) {
    Catalogued(d) == Version(first, d, |d.renamed|)
  }

  /** A reader reads, or has read, the catalog that was in place when it opened the path. */
  predicate ReaderConsistent(first: Disk, d: Disk, reader: Reader) {
    && reader.seen <= |d.renamed|
    && match reader
       case Reading(file, got, seen) =>
         && file in d.contents && !Temporary(d, file) && got <= d.contents[file]
         && Version(first, d, seen) == Some(d.contents[file])
       case Loaded(text, seen) => Version(first, d, seen) == text
  }

  predicate ReadersConsistent(first: Disk, d: Disk) {
    forall reader :: reader in d.readers ==> ReaderConsistent(first, d, d.readers[reader])
  }

  ghost predicate Invariant(first: Disk, d: Disk) {
    && OwnNames(d) && FilesConsistent(d) && WritersConsistent(d)
    && TargetConsistent(first, d) && ReadersConsistent(first, d)
  }

  // ---------------------------------------------------------------------------------------------
  // What a step may write

  /**
   A file that no temporary path names is never written again. Being the catalog is one way to be
   such a file; having been it, and still being read, is another.
   */
  lemma PublishedIsNeverWritten(d: Disk, a: Action, file: nat)
    requires OwnNames(d) && FilesConsistent(d) && WritersConsistent(d) && Enabled(d, a)
    requires file in d.contents && !Temporary(d, file)
    ensures file in Do(d, a).contents && Do(d, a).contents[file] == d.contents[file]
    ensures !Temporary(Do(d, a), file)
  {
  }

  lemma FilesStep(d: Disk, a: Action)
    requires OwnNames(d) && FilesConsistent(d) && WritersConsistent(d) && Enabled(d, a)
    ensures FilesConsistent(Do(d, a))
  {
    if d.target.Some? && !a.Rename? {
      PublishedIsNeverWritten(d, a, d.target.value);
    }
  }

  /** A step of another writer, or of a reader, leaves a writer's file alone. */
  lemma OthersLeaveWriter(d: Disk, a: Action, pid: Pid)
    requires OwnNames(d) && FilesConsistent(d) && WritersConsistent(d) && Enabled(d, a)
    requires pid in d.writers && pid in Do(d, a).writers && Do(d, a).writers[pid] == d.writers[pid]
    ensures WriterConsistent(Do(d, a), pid, d.writers[pid])
  {
    assert WriterConsistent(d, pid, d.writers[pid]);
    match a
    case OpenTemp(q) => assert d.naming(q) == d.naming(pid) ==> q == pid;
    case WriteSome(q, _) => assert WriterConsistent(d, q, d.writers[q]);
    case Rename(q) => assert d.naming(q) == d.naming(pid) ==> q == pid;
    case RemoveTemp(q) => assert d.naming(q) == d.naming(pid) ==> q == pid;
    case _ =>
  }

  lemma WriterWrites(d: Disk, pid: Pid, count: nat)
    requires WritersConsistent(d) && Enabled(d, WriteSome(pid, count))
    ensures WriterConsistent(Do(d, WriteSome(pid, count)), pid, Do(d, WriteSome(pid, count)).writers[pid])
  {
    assert WriterConsistent(d, pid, d.writers[pid]);
    var Writing(text, temp, done) := d.writers[pid];
    assert text[..done] + text[done..done + count] == text[..done + count];
  }

  lemma WriterStep(d: Disk, a: Action, pid: Pid)
    requires OwnNames(d) && FilesConsistent(d) && WritersConsistent(d) && Enabled(d, a)
    requires pid in Do(d, a).writers
    ensures WriterConsistent(Do(d, a), pid, Do(d, a).writers[pid])
  {
    if pid in d.writers && Do(d, a).writers[pid] == d.writers[pid] {
      OthersLeaveWriter(d, a, pid);
    } else if a.WriteSome? {
      WriterWrites(d, pid, a.count);
    }
  }

  lemma WritersStep(d: Disk, a: Action)
    requires OwnNames(d) && FilesConsistent(d) && WritersConsistent(d) && Enabled(d, a)
    ensures WritersConsistent(Do(d, a))
  {
    forall pid | pid in Do(d, a).writers ensures WriterConsistent(Do(d, a), pid, Do(d, a).writers[pid]) {
      WriterStep(d, a, pid);
    }
  }

  lemma VersionStays(first: Disk, d: Disk, a: Action, k: nat)
    requires Enabled(d, a) && k <= |d.renamed|
    ensures k <= |Do(d, a).renamed| && Version(first, Do(d, a), k) == Version(first, d, k)
  {
  }

  lemma TargetStep(first: Disk, d: Disk, a: Action)
    requires Invariant(first, d) && Enabled(d, a)
    ensures TargetConsistent(first, Do(d, a))
  {
    if a.Rename? {
      var writer := d.writers[a.pid];
      assert writer.text[..writer.done] == writer.text;
    } else if d.target.Some? {
      PublishedIsNeverWritten(d, a, d.target.value);
      VersionStays(first, d, a, |d.renamed|);
    }
  }

  lemma ReaderStep(first: Disk, d: Disk, a: Action, reader: nat)
    requires Invariant(first, d) && Enabled(d, a) && reader in Do(d, a).readers
    ensures ReaderConsistent(first, Do(d, a), Do(d, a).readers[reader])
  {
    if a != OpenTarget(reader) {
      VersionStays(first, d, a, d.readers[reader].seen);
      if d.readers[reader].Reading? {
        PublishedIsNeverWritten(d, a, d.readers[reader].file);
        if a == ReadToEnd(reader) {
          assert d.readers[reader].got == d.contents[d.readers[reader].file];
        }
      }
    }
  }

  lemma ReadersStep(first: Disk, d: Disk, a: Action)
    requires Invariant(first, d) && Enabled(d, a)
    ensures ReadersConsistent(first, Do(d, a))
  {
    var d' := Do(d, a);
    forall reader | reader in d'.readers
      ensures ReaderConsistent(first, d', d'.readers[reader])
    {
      ReaderStep(first, d, a, reader);
    }
  }

  lemma StepKeepsInvariant(first: Disk, d: Disk, a: Action)
    requires Invariant(first, d) && Enabled(d, a)
    ensures Invariant(first, Do(d, a))
  {
    FilesStep(d, a);
    WritersStep(d, a);
    TargetStep(first, d, a);
    ReadersStep(first, d, a);
  }

  lemma RunKeepsInvariant(first: Disk, d: Disk, run: seq<Action>)
    requires Invariant(first, d) && Exec(Take, d, run).Some?
    ensures Invariant(first, Exec(Take, d, run).value)
  {
    var holds := (d': Disk) => Invariant(first, d');
    forall d', a ensures Keeps(Take, holds, d', a) {
      if Invariant(first, d') && Enabled(d', a) {
        StepKeepsInvariant(first, d', a);
      }
    }
    ExecKeeps(Take, holds, d, run);
  }

  // ---------------------------------------------------------------------------------------------
  // Atomic replacement

  /**
   Atomic replacement, over every interleaving of writers, readers, failed writes, failed renames
   and crashes: the catalog's path always names a complete catalog, the last one renamed there; and
   whatever a reader reads to the end is the catalog that was in place when it opened the path, which
   is the first one or the whole text of one store, never a prefix of one or a mixture of two.
   */
  lemma AtomicReplacement(first: Disk, run: seq<Action>)
    requires Initial(first) && Exec(Take, first, run).Some?
    ensures var d := Exec(Take, first, run).value;
            && Catalogued(d) == Version(first, d, |d.renamed|)
            && forall reader :: reader in d.readers && d.readers[reader].Loaded? ==>
                 && d.readers[reader].seen <= |d.renamed|
                 && d.readers[reader].text == Version(first, d, d.readers[reader].seen)
  {
    RunKeepsInvariant(first, first, run);
  }

  /** A published file keeps its content for ever, through any run. */
  lemma {:induction false} PublishedForEver(first: Disk, d: Disk, run: seq<Action>, file: nat)
    requires Invariant(first, d) && Exec(Take, d, run).Some?
    requires file in d.contents && !Temporary(d, file)
    ensures file in Exec(Take, d, run).value.contents && Exec(Take, d, run).value.contents[file] == d.contents[file]
    decreases |run|
  {
    if run == [] {
    } else {
      PublishedIsNeverWritten(d, run[0], file);
      StepKeepsInvariant(first, d, run[0]);
      PublishedForEver(first, Do(d, run[0]), run[1..], file);
    }
  }

  /**
   So a `load` beside any number of `store`s finds one stored catalog, whole: the last that had been
   renamed into place when it opened the path, or what was there at first if none had been. What it
   makes of the text is the catalog that was stored, if reading the text gives that catalog's document.
   */
  lemma LoadFindsOneStore(first: Disk, run: seq<Action>, reader: nat, parse: seq<byte> -> Option<Json>)
    requires Initial(first) && Exec(Take, first, run).Some?
    requires reader in Exec(Take, first, run).value.readers && Exec(Take, first, run).value.readers[reader].Loaded?
    ensures var d := Exec(Take, first, run).value;
            var Loaded(text, seen) := d.readers[reader];
            if seen == 0 then text == Catalogued(first)
            else
              && seen <= |d.renamed| && text == Some(d.renamed[seen - 1])
              && forall stored :: WellFormed(stored) && parse(d.renamed[seen - 1]) == Some(DocumentOf(stored)) ==>
                   LoadOf(Readable(parse(text.value))) == Ok(stored)
  {
    AtomicReplacement(first, run);
    var d := Exec(Take, first, run).value;
    var Loaded(text, seen) := d.readers[reader];
    if seen > 0 {
      forall stored | WellFormed(stored) && parse(d.renamed[seen - 1]) == Some(DocumentOf(stored))
        ensures LoadOf(Readable(parse(text.value))) == Ok(stored)
      {
        PrintedReads(stored);
      }
    }
  }

  // ---------------------------------------------------------------------------------------------
  // Why the temporary name carries a process id

  /** A machine like any other, but for two writers that use one temporary path. */
  const SHARED := Disk(map[], None, (pid: Pid) => 0, map[], 0, map[], map[], [])

  const BOTH_OPEN: seq<Action> := [BeginStore(1, [65, 65]), BeginStore(2, [66]), OpenTemp(1), OpenTemp(2)]

  const ONE_RENAMES: seq<Action> := [WriteSome(1, 2), Rename(1), WriteSome(2, 1)]

  function Opened(): Disk {
    SHARED.(contents := map[0 := []], temps := map[0 := 0], unused := 1,
      writers := map[1 := Writing([65, 65], 0, 0), 2 := Writing([66], 0, 0)])
  }

  lemma SharedOpens()
    ensures Exec(Take, SHARED, BOTH_OPEN) == Some(Opened())
  {
    var d1 := Do(SHARED, BeginStore(1, [65, 65]));
    var d2 := Do(d1, BeginStore(2, [66]));
    var d3 := Do(d2, OpenTemp(1));
    var d4 := Do(d3, OpenTemp(2));
    assert d4.contents == Opened().contents && d4.temps == Opened().temps && d4.writers == Opened().writers;
    ExecTrace(Take, BOTH_OPEN, [SHARED, d1, d2, d3, d4]);
  }

  lemma SharedWrites()
    ensures Exec(Take, Opened(), ONE_RENAMES).Some?
    ensures var d := Exec(Take, Opened(), ONE_RENAMES).value;
            d.renamed == [[65, 65]] && Catalogued(d) == Some([66, 65])
  {
    var d1 := Do(Opened(), WriteSome(1, 2));
    assert d1.contents[0] == [65, 65];
    var d2 := Do(d1, Rename(1));
    var d3 := Do(d2, WriteSome(2, 1));
    assert d3.contents[0] == [66, 65];
    ExecTrace(Take, ONE_RENAMES, [Opened(), d1, d2, d3]);
  }

  /**
   Without a name of its own for each writer this fails. In this run one writer renames its finished
   text into place while the other has the same file open, and goes on to write to it. The catalog
   that is then in place is neither of the two texts.
   */
  lemma SharedTemporaryTears()
    ensures SHARED.writers == map[] && SHARED.readers == map[] && FilesConsistent(SHARED) && !OwnNames(SHARED)
    ensures Exec(Take, SHARED, BOTH_OPEN + ONE_RENAMES).Some?
    ensures var d := Exec(Take, SHARED, BOTH_OPEN + ONE_RENAMES).value;
            d.renamed == [[65, 65]] && Catalogued(d) == Some([66, 65])
  {
    assert SHARED.naming(1) == SHARED.naming(2);
    SharedOpens();
    SharedWrites();
    ExecConcat(Take, SHARED, BOTH_OPEN, ONE_RENAMES);
  }

  // ---------------------------------------------------------------------------------------------
  // The code itself

  predicate ByWriter(a: Action, pid: Pid) {
    !a.OpenTarget? && !a.ReadSome? && !a.ReadToEnd? && a.pid == pid
  }

  /** The file system, as one writer sees it: others store and load between any two of its calls. */
  class FileSystem {
    const first: Disk
    const others: nat -> seq<Action>
    const fails: nat -> bool
    const counts: nat -> nat
    var disk: Disk
    var clock: nat
    ghost var log: seq<Action>
    ghost var calls: seq<Action>

    constructor (first: Disk, others: nat -> seq<Action>, fails: nat -> bool, counts: nat -> nat)
      requires Initial(first)
      ensures Valid() && disk == first && this.first == first && this.fails == fails && clock == 0 && calls == []
    {
      this.first, this.others, this.fails, this.counts := first, others, fails, counts;
      this.disk, this.clock, this.log, this.calls := first, 0, [], [];
    }

    ghost predicate Valid()
      reads this
    {
      Initial(first) && LeadsTo(Take, first, log, disk)
    }

    /** A writer that has its temporary file open finds its name in place when it is done. */
    lemma TemporaryInPlace(pid: Pid)
      requires Valid() && pid in disk.writers && disk.writers[pid].Writing?
      ensures WriterConsistent(disk, pid, disk.writers[pid])
    {
      assert Exec(Take, first, log) == Some(disk);
      RunKeepsInvariant(first, first, log);
    }

    method Act(a: Action)
      requires Valid() && Enabled(disk, a)
      modifies this`disk, this`log
      ensures Valid() && disk == Do(old(disk), a)
    {
      LeadsFurther(Take, first, log, disk, a);
      disk := Do(disk, a);
      log := log + [a];
    }

    /** A call of the writer itself. */
    method Call(a: Action)
      requires Valid() && Enabled(disk, a)
      modifies this`disk, this`log, this`calls
      ensures Valid() && disk == Do(old(disk), a) && calls == old(calls) + [a]
    {
      Act(a);
      calls := calls + [a];
    }

    ghost function WriterOf(pid: Pid): Option<Writer>
      reads this
    {
      if pid in disk.writers then Some(disk.writers[pid]) else None
    }

    /** Others run before the next call of this writer, which then fails or does not. */
    method Yield(pid: Pid) returns (failed: bool)
      requires Valid()
      modifies this`disk, this`log, this`clock
      ensures Valid() && WriterOf(pid) == old(WriterOf(pid)) && old(disk).renamed <= disk.renamed
      ensures WentOn(fails, old(clock), clock, failed) && clock == old(clock) + 1
    {
      var run := others(clock);
      for i := 0 to |run|
        invariant Valid() && WriterOf(pid) == old(WriterOf(pid)) && old(disk).renamed <= disk.renamed
        invariant clock == old(clock)
      {
        if !ByWriter(run[i], pid) && Enabled(disk, run[i]) {
          Act(run[i]);
        }
      }
      failed := fails(clock);
      WentOnce(fails, clock);
      clock := clock + 1;
    }
  }

  /** None of the calls made since then moved anything into place. */
  predicate NoRename(calls: seq<Action>, since: nat, until: nat)
    requires since <= until <= |calls|
  {
    forall i :: since <= i < until ==> !calls[i].Rename?
  }

  /** Renames the finished temporary file over the catalog, or removes it when that fails. */
  method MoveIntoPlace(system: FileSystem, pid: Pid, text: Text) returns (ok: bool)
    requires system.Valid() && pid in system.disk.writers && system.disk.writers[pid].Writing?
    requires system.disk.writers[pid].text == text && system.disk.writers[pid].done == |text|
    modifies system
    ensures system.Valid() && system.WriterOf(pid) == Some(Stored(ok))
    ensures system.clock == old(system.clock) + if ok then 1 else 2
    ensures WentOn(system.fails, old(system.clock), old(system.clock) + 1, !ok)
    ensures if ok then
              system.calls == old(system.calls) + [Rename(pid)] && text in system.disk.renamed
            else
              system.calls == old(system.calls) + [RenameFails(pid), RemoveTemp(pid)]
  {
    var failed := system.Yield(pid);
    if failed {
      system.Call(RenameFails(pid));
      var _ := system.Yield(pid);
      system.Call(RemoveTemp(pid));
      return false;
    }
    system.TemporaryInPlace(pid);
    system.Call(Rename(pid));
    assert system.disk.renamed[|system.disk.renamed| - 1] == text;
    ok := true;
  }

  /** The writer has its text in its temporary file, as far as this. */
  ghost predicate HasWritten(system: FileSystem, pid: Pid, text: Text, done: nat)
    reads system
  {
    && system.WriterOf(pid).Some? && system.WriterOf(pid).value.Writing?
    && system.WriterOf(pid).value.text == text && system.WriterOf(pid).value.done == done
  }

  /** Writes one piece after another, however few bytes each call takes. */
  method WriteAll(system: FileSystem, pid: Pid, text: Text) returns (failed: bool)
    requires system.Valid() && HasWritten(system, pid, text, 0)
    modifies system
    ensures system.Valid() && system.WriterOf(pid).Some? && system.WriterOf(pid).value.Writing?
    ensures old(system.calls) <= system.calls
    ensures NoRename(system.calls, |old(system.calls)|, |system.calls|)
    ensures !failed ==> HasWritten(system, pid, text, |text|)
    ensures WentOn(system.fails, old(system.clock), system.clock, failed)
  {
    ghost var start := system.clock;
    var done := 0;
    while done < |text|
      invariant done <= |text|
      invariant WentOn(system.fails, start, system.clock, false)
      invariant system.Valid() && HasWritten(system, pid, text, done)
      invariant old(system.calls) <= system.calls
      invariant NoRename(system.calls, |old(system.calls)|, |system.calls|)
    {
      ghost var now := system.clock;
      failed := system.Yield(pid);
      WentFurther(system.fails, start, now, system.clock, failed);
      if failed {
        return;
      }
      var room := |text| - done;
      var wanted := system.counts(system.clock) + 1;
      var count := if wanted < room then wanted else room;
      system.Call(WriteSome(pid, count));
      done := done + count;
    }
    failed := false;
  }

  /** Writes the whole text to the temporary file, which then holds it and nothing else. */
  method WriteTemporary(system: FileSystem, pid: Pid, text: Text) returns (failed: bool)
    requires system.Valid() && system.WriterOf(pid) == Some(Ready(text))
    modifies system
    ensures system.Valid() && system.WriterOf(pid).Some?
    ensures old(system.calls) <= system.calls
    ensures NoRename(system.calls, |old(system.calls)|, |system.calls|)
    ensures failed ==> system.WriterOf(pid).value.Writing? || system.WriterOf(pid).value.Ready?
    ensures !failed ==> HasWritten(system, pid, text, |text|)
    ensures !failed ==> ContentOf(system.disk, system.WriterOf(pid).value.temp) == text
    ensures WentOn(system.fails, old(system.clock), system.clock, failed)
  {
    ghost var start := system.clock;
    failed := system.Yield(pid);
    if failed {
      return;
    }
    system.Call(OpenTemp(pid));
    ghost var now := system.clock;
    failed := WriteAll(system, pid, text);
    WentFurther(system.fails, start, now, system.clock, failed);
    if !failed {
      system.TemporaryInPlace(pid);
      assert text[..|text|] == text;
    }
  }

  /**
   Puts a new text in place of the catalog. It succeeds by renaming the whole text into place
   with its very last call, exactly when no call fails, and when it fails it has renamed nothing.
   */
  method Store(system: FileSystem, pid: Pid, text: Text) returns (ok: bool)
    requires system.Valid()
    requires system.WriterOf(pid) == None || system.WriterOf(pid).value.Stored?
    modifies system
    ensures system.Valid() && system.WriterOf(pid) == Some(Stored(ok))
    ensures |old(system.calls)| < |system.calls| && old(system.calls) <= system.calls
    ensures NoRename(system.calls, |old(system.calls)|, |system.calls| - 1)
    ensures ok <==> system.calls[|system.calls| - 1] == Rename(pid)
    ensures ok ==> text in system.disk.renamed
    ensures old(system.clock) < system.clock
    ensures ok <==> Unfailing(system.fails, old(system.clock), system.clock)
  {
    ghost var start := system.clock;
    system.Call(BeginStore(pid, text));
    var failed := WriteTemporary(system, pid, text);
    if failed {
      system.Call(WriteFails(pid));
      return false;
    }
    ghost var now, made := system.clock, system.calls;
    ok := MoveIntoPlace(system, pid, text);
    WentFurther(system.fails, start, now, now + 1, !ok);
    assert forall i :: 0 <= i < |made| ==> system.calls[i] == made[i];
  }
}
