/**
 Whole updates of the catalog by several processes: each loads it, changes it and stores it, and
 nothing keeps another's update from falling in between. What survives is worked out exactly: the
 catalog in place is the last update applied to what that update had loaded, and so on back.
 */
module CatalogUpdates {
  import opened Wrappers
  import opened Automaton
  import opened Json
  import opened Utf8
  import opened Catalog
  import opened CatalogTheorems
  import opened CatalogStore

  /** How JSON text is read. Any text that reads as a document may be what a store writes for it. */
  type Parser = seq<byte> -> Option<Json>

  /** What an update changed, and how many renames had been made when its load opened the path. */
  datatype Update = Update(change: Change, seen: nat)

  /** `pending` is what each storing process is about; `done` is the updates renamed into place, in order. */
  datatype Site = Site(disk: Disk, pending: map<Pid, Update>, done: seq<Update>)

  /** A store begins when a process has changed what it loaded. Everything else is a call of the disk's. */
  datatype Event = Call(action: Action) | BeginUpdate(pid: Pid, reader: nat, change: Change, text: Text)

  function FileOf(parse: Parser, text: Option<seq<byte>>): CatalogFile {
    match text
    case None => Missing
    case Some(bytes) => Readable(parse(bytes))
  }

  /** The text is that of the catalog which the change makes of what was loaded. */
  ghost predicate Yields(parse: Parser, loaded: Option<seq<byte>>, change: Change, text: Text) {
    var before := LoadOf(FileOf(parse, loaded));
    before.Ok? && parse(text) == Some(DocumentOf(Applied(before.value, change)))
  }

  ghost predicate Enabled(parse: Parser, s: Site, e: Event) {
    match e
    case Call(a) => !a.BeginStore? && CatalogStore.Enabled(s.disk, a)
    case BeginUpdate(pid, reader, change, text) =>
      && CatalogStore.Enabled(s.disk, BeginStore(pid, text))
      && reader in s.disk.readers && s.disk.readers[reader].Loaded?
      && Yields(parse, s.disk.readers[reader].text, change, text)
  }

  function ActionOf(e: Event): Action {
    match e
    case Call(a) => a
    case BeginUpdate(pid, _, _, text) => BeginStore(pid, text)
  }

  function Do(s: Site, e: Event): Site
    requires CatalogStore.Enabled(s.disk, ActionOf(e))
    requires e.BeginUpdate? ==> e.reader in s.disk.readers
  {
    var disk := CatalogStore.Do(s.disk, ActionOf(e));
    match e
    case Call(Rename(pid)) =>
      Site(disk, s.pending, if pid in s.pending then s.done + [s.pending[pid]] else s.done)
    case Call(_) => s.(disk := disk)
    case BeginUpdate(pid, reader, change, _) =>
      Site(disk, s.pending[pid := Update(change, s.disk.readers[reader].seen)], s.done)
  }

  ghost function Take(parse: Parser): (Site, Event) -> Option<Site> {
    (s: Site, e: Event) => if Enabled(parse, s, e) then Some(Do(s, e)) else None
  }

  ghost predicate Initial(s: Site) {
    CatalogStore.Initial(s.disk) && s.pending == map[] && s.done == []
  }

  // ---------------------------------------------------------------------------------------------
  // Each renamed text is its update, applied to the version its load opened

  ghost predicate Made(first: Disk, parse: Parser, d: Disk, update: Update, text: Text) {
    update.seen <= |d.renamed| && Yields(parse, Version(first, d, update.seen), update.change, text)
  }

  /** What a store is busy with was made of what its process had loaded. */
  ghost predicate PendingMade(first: Disk, parse: Parser, s: Site, pid: Pid) {
    && pid in s.disk.writers
    && ((s.disk.writers[pid].Ready? || s.disk.writers[pid].Writing?) ==>
          pid in s.pending && Made(first, parse, s.disk, s.pending[pid], s.disk.writers[pid].text))
  }

  ghost predicate DoneMade(first: Disk, parse: Parser, s: Site, i: nat)
    requires i < |s.done| == |s.disk.renamed|
  {
    s.done[i].seen <= i && Made(first, parse, s.disk, s.done[i], s.disk.renamed[i])
  }

  ghost predicate Invariant(first: Disk, parse: Parser, s: Site) {
    && CatalogStore.Invariant(first, s.disk)
    && |s.done| == |s.disk.renamed|
    && (forall pid :: pid in s.disk.writers ==> PendingMade(first, parse, s, pid))
    && (forall i :: 0 <= i < |s.done| ==> DoneMade(first, parse, s, i))
  }

  lemma MadeStays(first: Disk, parse: Parser, d: Disk, a: Action, update: Update, text: Text)
    requires CatalogStore.Enabled(d, a) && Made(first, parse, d, update, text)
    ensures Made(first, parse, CatalogStore.Do(d, a), update, text)
  {
    VersionStays(first, d, a, update.seen);
  }

  /** A store goes on with the text it began with. */
  lemma TextStays(d: Disk, a: Action, pid: Pid)
    requires CatalogStore.Enabled(d, a) && pid in CatalogStore.Do(d, a).writers
    requires a.BeginStore? ==> a.pid != pid
    ensures pid in d.writers
    ensures var writer := CatalogStore.Do(d, a).writers[pid];
            writer.Ready? || writer.Writing? ==>
              (d.writers[pid].Ready? || d.writers[pid].Writing?) && writer.text == d.writers[pid].text
  {
  }

  lemma PendingStays(first: Disk, parse: Parser, s: Site, e: Event, pid: Pid)
    requires Enabled(parse, s, e) && PendingMade(first, parse, s, pid)
    requires s.disk.writers[pid].Ready? || s.disk.writers[pid].Writing?
    requires e.BeginUpdate? ==> e.pid != pid
    ensures pid in Do(s, e).pending
    ensures Made(first, parse, Do(s, e).disk, Do(s, e).pending[pid], s.disk.writers[pid].text)
  {
    MadeStays(first, parse, s.disk, ActionOf(e), s.pending[pid], s.disk.writers[pid].text);
  }

  lemma PendingStep(first: Disk, parse: Parser, s: Site, e: Event, pid: Pid)
    requires Invariant(first, parse, s) && Enabled(parse, s, e) && pid in Do(s, e).disk.writers
    ensures PendingMade(first, parse, Do(s, e), pid)
  {
    if e.BeginUpdate? && e.pid == pid {
      var reader := s.disk.readers[e.reader];
      assert ReaderConsistent(first, s.disk, reader);
      MadeStays(first, parse, s.disk, ActionOf(e), Update(e.change, reader.seen), e.text);
    } else {
      TextStays(s.disk, ActionOf(e), pid);
      assert PendingMade(first, parse, s, pid);
      if s.disk.writers[pid].Ready? || s.disk.writers[pid].Writing? {
        PendingStays(first, parse, s, e, pid);
      }
    }
  }

  lemma DoneStep(first: Disk, parse: Parser, s: Site, e: Event, i: nat)
    requires Invariant(first, parse, s) && Enabled(parse, s, e)
    requires i < |Do(s, e).done| == |Do(s, e).disk.renamed|
    ensures DoneMade(first, parse, Do(s, e), i)
  {
    if i < |s.done| {
      assert DoneMade(first, parse, s, i);
      MadeStays(first, parse, s.disk, ActionOf(e), s.done[i], s.disk.renamed[i]);
    } else {
      var pid := e.action.pid;
      assert PendingMade(first, parse, s, pid);
      MadeStays(first, parse, s.disk, ActionOf(e), s.pending[pid], s.disk.writers[pid].text);
    }
  }

  lemma StepKeepsInvariant(first: Disk, parse: Parser, s: Site, e: Event)
    ensures Invariant(first, parse, s) && Enabled(parse, s, e) ==> Invariant(first, parse, Do(s, e))
  {
    if Invariant(first, parse, s) && Enabled(parse, s, e) {
      CatalogStore.StepKeepsInvariant(first, s.disk, ActionOf(e));
      if e.Call? && e.action.Rename? {
        assert PendingMade(first, parse, s, e.action.pid);
      }
      assert |Do(s, e).done| == |Do(s, e).disk.renamed|;
      forall pid | pid in Do(s, e).disk.writers ensures PendingMade(first, parse, Do(s, e), pid) {
        PendingStep(first, parse, s, e, pid);
      }
      forall i | 0 <= i < |Do(s, e).done| ensures DoneMade(first, parse, Do(s, e), i) {
        DoneStep(first, parse, s, e, i);
      }
    }
  }

  lemma RunKeepsInvariant(first: Site, parse: Parser, run: seq<Event>)
    requires Initial(first) && Exec(Take(parse), first, run).Some?
    ensures Invariant(first.disk, parse, Exec(Take(parse), first, run).value)
  {
    var holds := (s: Site) => Invariant(first.disk, parse, s);
    forall s, e ensures Keeps(Take(parse), holds, s, e) {
      StepKeepsInvariant(first.disk, parse, s, e);
    }
    ExecKeeps(Take(parse), holds, first, run);
  }

  // ---------------------------------------------------------------------------------------------
  // What survives

  /** Every update loaded a version from before its own rename. */
  predicate Ordered(done: seq<Update>) {
    forall i :: 0 <= i < |done| ==> done[i].seen <= i
  }

  /** The changes behind the catalog after `k` renames: the last one, what it had loaded, and so on back. */
  function Lineage(done: seq<Update>, k: nat): seq<Change>
    requires Ordered(done) && k <= |done|
  {
    if k == 0 then [] else Lineage(done, done[k - 1].seen) + [done[k - 1].change]
  }

  function Changes(done: seq<Update>): seq<Change> {
    seq(|done|, i requires 0 <= i < |done| => done[i].change)
  }

  /** Each load opened the path after the rename before its own: no update fell into another. */
  predicate OneAtATime(done: seq<Update>) {
    forall i :: 0 <= i < |done| ==> done[i].seen == i
  }

  lemma DoneIsOrdered(first: Disk, parse: Parser, s: Site)
    requires Invariant(first, parse, s)
    ensures Ordered(s.done)
  {
    forall i | 0 <= i < |s.done| ensures s.done[i].seen <= i {
      assert DoneMade(first, parse, s, i);
    }
  }

  lemma AfterOneMore(c: Contents, history: seq<Change>, change: Change)
    ensures AfterHistory(c, history + [change]) == Applied(AfterHistory(c, history), change)
  {
    assert (history + [change])[..|history|] == history;
  }

  /** A load that finds the text of an update finds what the update made of what it had loaded. */
  lemma YieldedReads(parse: Parser, loaded: Option<seq<byte>>, change: Change, text: Text)
    requires Yields(parse, loaded, change, text) && WellFormed(LoadOf(FileOf(parse, loaded)).value)
    ensures LoadOf(FileOf(parse, Some(text))) == Ok(Applied(LoadOf(FileOf(parse, loaded)).value, change))
  {
    AppliedKeepsWellFormed(LoadOf(FileOf(parse, loaded)).value, change);
    PrintedReads(Applied(LoadOf(FileOf(parse, loaded)).value, change));
  }

  lemma {:induction false} VersionIsLineage(first: Disk, parse: Parser, s: Site, k: nat, start: Contents)
    requires Invariant(first, parse, s) && k <= |s.done| && Ordered(s.done)
    requires LoadOf(FileOf(parse, Catalogued(first))) == Ok(start) && WellFormed(start)
    ensures LoadOf(FileOf(parse, Version(first, s.disk, k))) == Ok(AfterHistory(start, Lineage(s.done, k)))
  {
    if k == 0 {
    } else {
      assert DoneMade(first, parse, s, k - 1);
      var update := s.done[k - 1];
      VersionIsLineage(first, parse, s, update.seen, start);
      AfterKeepsWellFormed(start, Lineage(s.done, update.seen));
      YieldedReads(parse, Version(first, s.disk, update.seen), update.change, s.disk.renamed[k - 1]);
      AfterOneMore(start, Lineage(s.done, update.seen), update.change);
    }
  }

  lemma LoadedIsWellFormed(file: CatalogFile)
    requires LoadOf(file).Ok?
    ensures WellFormed(LoadOf(file).value)
  {
    if file.Readable? {
      ParseAndPrintAreInverse(file.document.value, LoadOf(file).value);
    }
  }

  /**
   The catalog in place after any run of updates, beside any readers, failures and crashes, is what
   was there at first with exactly the changes of the last update's lineage applied. A change that is
   not in that lineage was renamed into place and is lost.
   */
  lemma LineageSurvives(first: Site, parse: Parser, run: seq<Event>)
    requires Initial(first) && Exec(Take(parse), first, run).Some?
    requires LoadOf(FileOf(parse, Catalogued(first.disk))).Ok?
    ensures var s := Exec(Take(parse), first, run).value;
            var start := LoadOf(FileOf(parse, Catalogued(first.disk))).value;
            && Ordered(s.done)
            && LoadOf(FileOf(parse, Catalogued(s.disk))) == Ok(AfterHistory(start, Lineage(s.done, |s.done|)))
  {
    var s := Exec(Take(parse), first, run).value;
    RunKeepsInvariant(first, parse, run);
    DoneIsOrdered(first.disk, parse, s);
    LoadedIsWellFormed(FileOf(parse, Catalogued(first.disk)));
    VersionIsLineage(first.disk, parse, s, |s.done|, LoadOf(FileOf(parse, Catalogued(first.disk))).value);
  }

  lemma {:induction false} LineageLength(done: seq<Update>, k: nat)
    requires Ordered(done) && k <= |done|
    ensures |Lineage(done, k)| <= k
    ensures |Lineage(done, k)| == k ==> OneAtATime(done[..k]) && Lineage(done, k) == Changes(done[..k])
    ensures OneAtATime(done[..k]) ==> |Lineage(done, k)| == k
  {
    if k == 0 {
    } else {
      var seen := done[k - 1].seen;
      LineageLength(done, seen);
      if seen == k - 1 {
        assert forall i :: 0 <= i < k - 1 ==> done[..k][i] == done[..k - 1][i];
        assert done[..k][..k - 1] == done[..k - 1];
      } else {
        assert done[..k][k - 1].seen != k - 1;
      }
    }
  }

  /** Every update survives, in the order of the renames, exactly when they were made one at a time. */
  lemma SerializedExactly(done: seq<Update>)
    requires Ordered(done)
    ensures Lineage(done, |done|) == Changes(done) <==> OneAtATime(done)
  {
    LineageLength(done, |done|);
    assert done[..|done|] == done;
  }

  // ---------------------------------------------------------------------------------------------
  // Insertions of new names

  /** The updates are insertions that are accepted, of names that are new and differ from each other. */
  predicate NewNames(start: Contents, done: seq<Update>) {
    && (forall i :: 0 <= i < |done| ==>
          && done[i].change.Insert? && InsertProblems(done[i].change.name, done[i].change.path) == []
          && done[i].change.name !in start.databases)
    && (forall i, j :: 0 <= i < j < |done| ==> done[i].change.name != done[j].change.name)
  }

  predicate InLineage(done: seq<Update>, k: nat, i: nat)
    requires Ordered(done) && k <= |done|
  {
    k > 0 && (i == k - 1 || InLineage(done, done[k - 1].seen, i))
  }

  lemma {:induction false} NameSurvives(start: Contents, done: seq<Update>, k: nat, i: nat)
    requires Ordered(done) && NewNames(start, done) && k <= |done| && i < |done|
    ensures done[i].change.name in AfterHistory(start, Lineage(done, k)).databases <==> InLineage(done, k, i)
  {
    if k == 0 {
    } else {
      NameSurvives(start, done, done[k - 1].seen, i);
      AfterOneMore(start, Lineage(done, done[k - 1].seen), done[k - 1].change);
    }
  }

  lemma {:induction false} LineageIsEarlier(done: seq<Update>, k: nat, i: nat)
    requires Ordered(done) && k <= |done| && InLineage(done, k, i)
    ensures i < k
  {
    if i != k - 1 {
      LineageIsEarlier(done, done[k - 1].seen, i);
    }
  }

  ghost predicate Whole(done: seq<Update>, k: nat)
    requires Ordered(done) && k <= |done|
  {
    forall i: nat :: i < k ==> InLineage(done, k, i)
  }

  lemma WholeBefore(done: seq<Update>, k: nat)
    requires Ordered(done) && 0 < k <= |done| && done[k - 1].seen == k - 1
    ensures Whole(done, k) <==> Whole(done, k - 1)
  {
    var before := k - 1;
    if Whole(done, k) {
      forall i: nat | i < before ensures InLineage(done, before, i) {
        assert InLineage(done, k, i);
      }
    }
    if Whole(done, before) {
      forall i: nat | i < k ensures InLineage(done, k, i) {
        assert i == before || InLineage(done, before, i);
      }
    }
  }

  lemma {:induction false} WholeLineage(done: seq<Update>, k: nat)
    requires Ordered(done) && k <= |done|
    ensures Whole(done, k) <==> OneAtATime(done[..k])
  {
    if k == 0 {
    } else {
      var seen := done[k - 1].seen;
      if seen < k - 1 {
        assert done[..k][k - 1].seen != k - 1;
        if InLineage(done, k, k - 2) {
          LineageIsEarlier(done, seen, k - 2);
        }
      } else {
        WholeLineage(done, k - 1);
        WholeBefore(done, k);
        assert OneAtATime(done[..k]) <==> OneAtATime(done[..k - 1]) by {
          assert forall i :: 0 <= i < k - 1 ==> done[..k][i] == done[..k - 1][i];
        }
      }
    }
  }

  /** Every name that was inserted is in the catalog. */
  predicate AllIn(done: seq<Update>, c: Contents) {
    forall i :: 0 <= i < |done| && done[i].change.Insert? ==> done[i].change.name in c.databases
  }

  lemma InsertionsSurvive(start: Contents, done: seq<Update>)
    requires Ordered(done) && NewNames(start, done)
    ensures AllIn(done, AfterHistory(start, Lineage(done, |done|))) <==> OneAtATime(done)
  {
    var final := AfterHistory(start, Lineage(done, |done|));
    forall i: nat | i < |done|
      ensures done[i].change.name in final.databases <==> InLineage(done, |done|, i)
    {
      NameSurvives(start, done, |done|, i);
    }
    WholeLineage(done, |done|);
    assert done[..|done|] == done;
  }

  /**
   Concurrent insertions of new names: all of them are in the catalog at the end exactly when each
   load opened the path after the rename before its own.
   */
  lemma NoInsertionLostExactly(first: Site, parse: Parser, run: seq<Event>)
    requires Initial(first) && Exec(Take(parse), first, run).Some?
    requires LoadOf(FileOf(parse, Catalogued(first.disk))).Ok?
    requires NewNames(LoadOf(FileOf(parse, Catalogued(first.disk))).value, Exec(Take(parse), first, run).value.done)
    ensures var s := Exec(Take(parse), first, run).value;
            var final := LoadOf(FileOf(parse, Catalogued(s.disk)));
            final.Ok? && (AllIn(s.done, final.value) <==> OneAtATime(s.done))
  {
    LineageSurvives(first, parse, run);
    InsertionsSurvive(LoadOf(FileOf(parse, Catalogued(first.disk))).value, Exec(Take(parse), first, run).value.done);
  }

  // ---------------------------------------------------------------------------------------------
  // An update that is lost

  const FIRST_INSERTION := Insert("a", "/a")
  const SECOND_INSERTION := Insert("b", "/b")

  /** A parser that reads one text as the catalog with `a` in it, and another as that with `b`. */
  function TwoTexts(text: seq<byte>): Option<Json> {
    if text == [65] then Some(DocumentOf(Contents(map["a" := Entry("/a", map[])], map[])))
    else if text == [66] then Some(DocumentOf(Contents(map["b" := Entry("/b", map[])], map[])))
    else None
  }

  /** No catalog yet, and nothing left behind. */
  function Empty(): Site {
    Site(Disk(map[], None, (pid: Pid) => pid, map[], 0, map[], map[], []), map[], [])
  }

  function Loads(reader: nat): seq<Event> {
    [Call(OpenTarget(reader))]
  }

  function Writes(pid: Pid, change: Change, text: Text): seq<Event> {
    [BeginUpdate(pid, pid, change, text), Call(OpenTemp(pid)), Call(WriteSome(pid, 1))]
  }

  function Stores(pid: Pid, change: Change, text: Text): seq<Event> {
    Writes(pid, change, text) + [Call(Rename(pid))]
  }

  /** The disk while a one-byte store has its text written and has yet to rename it. */
  function Written(d: Disk, pid: Pid, text: Text): Disk {
    d.(contents := d.contents[d.unused := text], temps := d.temps[d.naming(pid) := d.unused],
       unused := d.unused + 1, writers := d.writers[pid := Writing(text, d.unused, 1)])
  }

  /** A call of the disk's that is no rename changes the disk, and nothing else. */
  ghost predicate CallTaken(take: (Site, Event) -> Option<Site>, s: Site, a: Action) {
    !a.BeginStore? && !a.Rename? && CatalogStore.Enabled(s.disk, a) ==>
      take(s, Call(a)) == Some(s.(disk := CatalogStore.Do(s.disk, a)))
  }

  lemma CallsTaken(parse: Parser)
    ensures forall s, a :: CallTaken(Take(parse), s, a)
  {
  }

  lemma WriteCalls(d: Disk, pid: Pid, text: Text)
    requires pid !in d.writers && d.naming(pid) !in d.temps && |text| == 1
    ensures var d1 := CatalogStore.Do(d, BeginStore(pid, text));
            && CatalogStore.Enabled(d1, OpenTemp(pid))
            && var d2 := CatalogStore.Do(d1, OpenTemp(pid));
               && CatalogStore.Enabled(d2, WriteSome(pid, 1))
               && CatalogStore.Do(d2, WriteSome(pid, 1)) == Written(d, pid, text)
  {
    var d1 := CatalogStore.Do(d, BeginStore(pid, text));
    var d2 := CatalogStore.Do(d1, OpenTemp(pid));
    assert d2.writers[pid] == Writing(text, d.unused, 0) && d2.contents[d.unused] == [];
    assert Overwritten([], 0, text[0..1]) == text;
    var d3 := CatalogStore.Do(d2, WriteSome(pid, 1));
    assert d3.contents == d.contents[d.unused := text];
    assert d3.writers == d.writers[pid := Writing(text, d.unused, 1)];
  }

  lemma UpdateTaken(parse: Parser, s: Site, pid: Pid, change: Change, text: Text)
    requires pid !in s.disk.writers && pid in s.disk.readers && s.disk.readers[pid].Loaded?
    requires Yields(parse, s.disk.readers[pid].text, change, text)
    ensures Take(parse)(s, BeginUpdate(pid, pid, change, text)) ==
            Some(Site(CatalogStore.Do(s.disk, BeginStore(pid, text)),
                      s.pending[pid := Update(change, s.disk.readers[pid].seen)], s.done))
  {
  }

  /** The calls of a one-byte store up to its rename, whatever function takes them. */
  lemma WritesTaken(take: (Site, Event) -> Option<Site>, s: Site, s1: Site, pid: Pid, change: Change, text: Text)
    requires take(s, BeginUpdate(pid, pid, change, text)) == Some(s1)
    requires pid !in s.disk.writers && s.disk.naming(pid) !in s.disk.temps && |text| == 1
    requires s1.disk == CatalogStore.Do(s.disk, BeginStore(pid, text))
    requires forall here: Site, a :: CallTaken(take, here, a)
    ensures Exec(take, s, Writes(pid, change, text)) == Some(s1.(disk := Written(s.disk, pid, text)))
  {
    WriteCalls(s.disk, pid, text);
    var s2 := s1.(disk := CatalogStore.Do(s1.disk, OpenTemp(pid)));
    var s3 := s2.(disk := CatalogStore.Do(s2.disk, WriteSome(pid, 1)));
    assert CallTaken(take, s1, OpenTemp(pid)) && CallTaken(take, s2, WriteSome(pid, 1));
    ExecTrace(take, Writes(pid, change, text), [s, s1, s2, s3]);
  }

  lemma WriteRuns(parse: Parser, s: Site, pid: Pid, change: Change, text: Text)
    requires pid !in s.disk.writers && pid in s.disk.readers && s.disk.readers[pid].Loaded?
    requires s.disk.naming(pid) !in s.disk.temps && |text| == 1
    requires Yields(parse, s.disk.readers[pid].text, change, text)
    ensures Exec(Take(parse), s, Writes(pid, change, text)) ==
            Some(Site(Written(s.disk, pid, text), s.pending[pid := Update(change, s.disk.readers[pid].seen)], s.done))
  {
    UpdateTaken(parse, s, pid, change, text);
    CallsTaken(parse);
    var s1 := Site(CatalogStore.Do(s.disk, BeginStore(pid, text)),
                   s.pending[pid := Update(change, s.disk.readers[pid].seen)], s.done);
    WritesTaken(Take(parse), s, s1, pid, change, text);
  }

  lemma RenameTaken(parse: Parser, s: Site, pid: Pid)
    requires CatalogStore.Enabled(s.disk, Rename(pid)) && pid in s.pending
    ensures Take(parse)(s, Call(Rename(pid))) ==
            Some(Site(CatalogStore.Do(s.disk, Rename(pid)), s.pending, s.done + [s.pending[pid]]))
  {
  }

  lemma WrittenRenames(d: Disk, pid: Pid, text: Text)
    requires d.naming(pid) !in d.temps && |text| == 1
    ensures CatalogStore.Enabled(Written(d, pid, text), Rename(pid))
    ensures var d' := CatalogStore.Do(Written(d, pid, text), Rename(pid));
            && d'.writers == d.writers[pid := Stored(true)] && d'.readers == d.readers && d'.naming == d.naming
            && d'.temps == d.temps && Catalogued(d') == Some(text)
  {
    assert CatalogStore.Do(Written(d, pid, text), Rename(pid)).temps == d.temps;
  }

  /** A process whose load is over is left to store what it made of it. */
  lemma StoreRuns(parse: Parser, s: Site, pid: Pid, change: Change, text: Text)
    requires pid !in s.disk.writers && pid in s.disk.readers && s.disk.readers[pid].Loaded?
    requires s.disk.naming(pid) !in s.disk.temps && |text| == 1
    requires Yields(parse, s.disk.readers[pid].text, change, text)
    ensures Exec(Take(parse), s, Stores(pid, change, text)).Some?
    ensures var s' := Exec(Take(parse), s, Stores(pid, change, text)).value;
            && s'.done == s.done + [Update(change, s.disk.readers[pid].seen)]
            && s'.disk.writers == s.disk.writers[pid := Stored(true)]
            && s'.disk.readers == s.disk.readers && s'.disk.naming == s.disk.naming
            && s'.disk.temps == s.disk.temps && Catalogued(s'.disk) == Some(text)
  {
    WriteRuns(parse, s, pid, change, text);
    WrittenRenames(s.disk, pid, text);
    RenameTaken(parse, Exec(Take(parse), s, Writes(pid, change, text)).value, pid);
    ExecAppend(Take(parse), s, Writes(pid, change, text), Call(Rename(pid)));
  }

  lemma NoCatalogLoads(parse: Parser, s: Site, reader: nat)
    requires s.disk.target == None && reader !in s.disk.readers
    ensures Exec(Take(parse), s, Loads(reader)) ==
            Some(s.(disk := s.disk.(readers := s.disk.readers[reader := Loaded(None, |s.disk.renamed|)])))
  {
    ExecTrace(Take(parse), Loads(reader), [s, Do(s, Call(OpenTarget(reader)))]);
  }

  lemma TextsAreInsertions()
    ensures Yields(TwoTexts, None, FIRST_INSERTION, [65]) && Yields(TwoTexts, None, SECOND_INSERTION, [66])
  {
  }

  const BOTH_STORE: seq<Event> := Stores(1, FIRST_INSERTION, [65]) + Stores(2, SECOND_INSERTION, [66])

  const LOSING_RUN: seq<Event> := Loads(1) + Loads(2) + BOTH_STORE

  /** Two processes have loaded, and neither has stored. */
  function BothLoaded(): Site {
    Empty().(disk := Empty().disk.(readers := map[1 := Loaded(None, 0), 2 := Loaded(None, 0)]))
  }

  lemma BothLoad()
    ensures Exec(Take(TwoTexts), Empty(), Loads(1) + Loads(2)) == Some(BothLoaded())
  {
    NoCatalogLoads(TwoTexts, Empty(), 1);
    NoCatalogLoads(TwoTexts, Exec(Take(TwoTexts), Empty(), Loads(1)).value, 2);
    ExecConcat(Take(TwoTexts), Empty(), Loads(1), Loads(2));
  }

  lemma BothStore()
    ensures Exec(Take(TwoTexts), BothLoaded(), BOTH_STORE).Some?
    ensures var s := Exec(Take(TwoTexts), BothLoaded(), BOTH_STORE).value;
            && s.done == [Update(FIRST_INSERTION, 0), Update(SECOND_INSERTION, 0)]
            && Catalogued(s.disk) == Some([66])
  {
    TextsAreInsertions();
    StoreRuns(TwoTexts, BothLoaded(), 1, FIRST_INSERTION, [65]);
    var s := Exec(Take(TwoTexts), BothLoaded(), Stores(1, FIRST_INSERTION, [65])).value;
    StoreRuns(TwoTexts, s, 2, SECOND_INSERTION, [66]);
    ExecConcat(Take(TwoTexts), BothLoaded(), Stores(1, FIRST_INSERTION, [65]), Stores(2, SECOND_INSERTION, [66]));
  }

  lemma LosingRunRuns()
    ensures Exec(Take(TwoTexts), Empty(), LOSING_RUN).Some?
    ensures var s := Exec(Take(TwoTexts), Empty(), LOSING_RUN).value;
            && s.done == [Update(FIRST_INSERTION, 0), Update(SECOND_INSERTION, 0)]
            && Catalogued(s.disk) == Some([66])
  {
    BothLoad();
    BothStore();
    ExecConcat(Take(TwoTexts), Empty(), Loads(1) + Loads(2), BOTH_STORE);
  }

  lemma SecondTextReads()
    ensures LoadOf(FileOf(TwoTexts, Some([66]))) == Ok(Contents(map["b" := Entry("/b", map[])], map[]))
  {
    var c := Contents(map["b" := Entry("/b", map[])], map[]);
    assert Registrable("b");
    PrintedReads(c);
  }

  /**
   Catalog mutation is not serialized between processes. In this run two processes load, insert and
   store; both insertions are renamed into place, and the first is not in the catalog that remains.
   */
  lemma InsertionLost()
    ensures Initial(Empty()) && Exec(Take(TwoTexts), Empty(), LOSING_RUN).Some?
    ensures var s := Exec(Take(TwoTexts), Empty(), LOSING_RUN).value;
            var final := LoadOf(FileOf(TwoTexts, Catalogued(s.disk)));
            && s.done == [Update(FIRST_INSERTION, 0), Update(SECOND_INSERTION, 0)]
            && final.Ok? && "a" !in final.value.databases && "b" in final.value.databases
  {
    LosingRunRuns();
    SecondTextReads();
  }
}
