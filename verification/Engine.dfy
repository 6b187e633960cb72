/**
 The Engine as the daemon uses it: databases that are opened, transactions that are begun, run,
 committed or rolled back. `nostdb-core` itself is not modelled. Every outcome is an oracle's
 choice, by the position of the call, so what is proved holds of every Engine behaviour and every
 schedule of failures; and before each call other connections may publish commits of their own.
 */
module Engine {
  import opened Wrappers
  import opened Catalog

  /** The uncommitted changes a transaction holds. Its write summary is empty when it is. */
  type Overlay = seq<string>

  /** A row of a result, as it is reported. */
  type Row = string

  datatype RunResult = Rows(rows: seq<Row>) | Failure(code: string)

  datatype RunChoice = RunChoice(overlay: Overlay, result: RunResult)

  datatype BeginChoice = MayBegin(lag: nat) | MayNotBegin

  datatype CommitChoice = MayCommit(skipped: nat, publishEmpty: bool) | MayNotCommit

  datatype Foreign = Foreign(path: string, writes: Overlay, skipped: nat)

  datatype Oracle = Oracle(
    open: nat -> bool,
    begin: nat -> BeginChoice,
    run: (nat, Overlay, string) -> RunChoice,
    commit: nat -> CommitChoice,
    foreign: nat -> seq<Foreign>,
    cypher: string -> Option<string>,
    files: nat -> CatalogFile
  )

  /** One published commit. `own` tells this connection's commits from everybody else's. */
  datatype Publication = Publication(path: string, generation: nat, writes: Overlay, own: bool)

  /** Everything ever published, oldest first, and how many calls have been made. */
  datatype Store = Store(journal: seq<Publication>, tick: nat)

  datatype Txn = Txn(path: string, base: nat, overlay: Overlay)

  function Generation(journal: seq<Publication>, path: string): nat {
    if journal == [] then 0
    else if journal[|journal| - 1].path == path then journal[|journal| - 1].generation
    else Generation(journal[..|journal| - 1], path)
  }

  function Publish(journal: seq<Publication>, path: string, writes: Overlay, skipped: nat, own: bool)
    : seq<Publication>
  {
    journal + [Publication(path, Generation(journal, path) + 1 + skipped, writes, own)]
  }

  function Interfere(journal: seq<Publication>, others: seq<Foreign>): seq<Publication>
    decreases |others|
  {
    if others == [] then journal
    else Interfere(Publish(journal, others[0].path, others[0].writes, others[0].skipped, false), others[1..])
  }

  /** What a call finds: whatever others have published meanwhile is there. */
  function Ticked(o: Oracle, s: Store): Store {
    Store(Interfere(s.journal, o.foreign(s.tick)), s.tick + 1)
  }

  datatype Begun = Begun(store: Store, txn: Option<Txn>)

  function BeginOf(o: Oracle, s: Store, path: string): Begun {
    var found := Ticked(o, s);
    match o.begin(s.tick)
    case MayNotBegin => Begun(found, None)
    case MayBegin(lag) =>
      var current := Generation(found.journal, path);
      Begun(found, Some(Txn(path, if lag <= current then current - lag else 0, [])))
  }

  datatype Ran = Ran(store: Store, txn: Txn, result: RunResult)

  function RunOf(o: Oracle, s: Store, txn: Txn, statement: string): Ran {
    var choice := o.run(s.tick, txn.overlay, statement);
    Ran(Ticked(o, s), txn.(overlay := choice.overlay), choice.result)
  }

  datatype CommitResult = CommitResult(store: Store, generation: Option<nat>)

  /** A commit publishes the overlay at a larger generation, or leaves the store alone. */
  function CommitOf(o: Oracle, s: Store, txn: Txn): CommitResult {
    var found := Ticked(o, s);
    match o.commit(s.tick)
    case MayNotCommit => CommitResult(found, None)
    case MayCommit(skipped, publishEmpty) =>
      if txn.overlay != [] || publishEmpty then
        var journal := Publish(found.journal, txn.path, txn.overlay, skipped, true);
        CommitResult(found.(journal := journal), Some(journal[|journal| - 1].generation))
      else
        CommitResult(found, Some(Generation(found.journal, txn.path)))
  }

  // ---------------------------------------------------------------------------------------------
  // What this connection has published

  function Own(journal: seq<Publication>): seq<Publication> {
    if journal == [] then []
    else
      var last := journal[|journal| - 1];
      Own(journal[..|journal| - 1]) + if last.own then [last] else []
  }

  lemma OwnPublish(journal: seq<Publication>, path: string, writes: Overlay, skipped: nat, own: bool)
    ensures var after := Publish(journal, path, writes, skipped, own);
            && journal <= after
            && Own(after) == Own(journal) + if own then [after[|journal|]] else []
  {
  }

  lemma {:induction false} OwnInterfere(journal: seq<Publication>, others: seq<Foreign>)
    ensures Own(Interfere(journal, others)) == Own(journal)
    ensures journal <= Interfere(journal, others)
    decreases |others|
  {
    if others == [] {
    } else {
      OwnPublish(journal, others[0].path, others[0].writes, others[0].skipped, false);
      OwnInterfere(Publish(journal, others[0].path, others[0].writes, others[0].skipped, false), others[1..]);
    }
  }

  /** Other connections add to the journal. They take nothing away, and nothing of theirs is ours. */
  lemma OwnTicked(o: Oracle, s: Store)
    ensures Own(Ticked(o, s).journal) == Own(s.journal)
    ensures s.journal <= Ticked(o, s).journal
  {
    OwnInterfere(s.journal, o.foreign(s.tick));
  }

  /** Only an accepted commit publishes, and it publishes what the transaction held. */
  lemma OwnCommit(o: Oracle, s: Store, txn: Txn)
    ensures var k := CommitOf(o, s, txn);
            && s.journal <= k.store.journal
            && (k.generation == None ==> Own(k.store.journal) == Own(s.journal))
            && (k.generation.Some? && txn.overlay != [] ==>
                  Own(k.store.journal) ==
                  Own(s.journal) + [Publication(txn.path, k.generation.value, txn.overlay, true)])
            && (k.generation.Some? && txn.overlay == [] ==>
                  || Own(k.store.journal) == Own(s.journal)
                  || Own(k.store.journal) ==
                     Own(s.journal) + [Publication(txn.path, k.generation.value, txn.overlay, true)])
  {
    OwnTicked(o, s);
    match o.commit(s.tick)
    case MayNotCommit =>
    case MayCommit(skipped, _) =>
      OwnPublish(Ticked(o, s).journal, txn.path, txn.overlay, skipped, true);
  }

  // ---------------------------------------------------------------------------------------------
  // Generations

  /** Later publications of a database carry larger generations. */
  predicate Advancing(journal: seq<Publication>) {
    forall i, j :: 0 <= i < j < |journal| && journal[i].path == journal[j].path ==>
      journal[i].generation < journal[j].generation
  }

  lemma {:induction false} GenerationIsLatest(journal: seq<Publication>, path: string)
    requires Advancing(journal)
    ensures forall i :: 0 <= i < |journal| && journal[i].path == path ==>
              journal[i].generation <= Generation(journal, path)
  {
    if journal == [] {
    } else {
      GenerationIsLatest(journal[..|journal| - 1], path);
    }
  }

  lemma PublishAdvances(journal: seq<Publication>, path: string, writes: Overlay, skipped: nat, own: bool)
    requires Advancing(journal)
    ensures Advancing(Publish(journal, path, writes, skipped, own))
    ensures forall p :: Generation(journal, p) <= Generation(Publish(journal, path, writes, skipped, own), p)
  {
    GenerationIsLatest(journal, path);
    assert Publish(journal, path, writes, skipped, own)[..|journal|] == journal;
  }

  lemma {:induction false} InterferenceAdvances(journal: seq<Publication>, others: seq<Foreign>)
    requires Advancing(journal)
    ensures Advancing(Interfere(journal, others))
    ensures forall p :: Generation(journal, p) <= Generation(Interfere(journal, others), p)
    decreases |others|
  {
    if others == [] {
    } else {
      PublishAdvances(journal, others[0].path, others[0].writes, others[0].skipped, false);
      InterferenceAdvances(Publish(journal, others[0].path, others[0].writes, others[0].skipped, false), others[1..]);
    }
  }

  /** No step upsets the order of generations, and none takes one back. */
  ghost predicate Advances(s0: Store, s1: Store) {
    Advancing(s0.journal) ==>
      Advancing(s1.journal) && forall path :: Generation(s0.journal, path) <= Generation(s1.journal, path)
  }

  lemma TickedAdvances(o: Oracle, s: Store)
    ensures Advances(s, Ticked(o, s))
  {
    if Advancing(s.journal) {
      InterferenceAdvances(s.journal, o.foreign(s.tick));
    }
  }

  lemma CommitAdvances(o: Oracle, s: Store, txn: Txn)
    ensures var k := CommitOf(o, s, txn);
            Advances(s, k.store) && (k.generation.Some? ==> k.generation.value == Generation(k.store.journal, txn.path))
  {
    TickedAdvances(o, s);
    match o.commit(s.tick)
    case MayNotCommit =>
    case MayCommit(skipped, _) =>
      if Advancing(s.journal) {
        PublishAdvances(Ticked(o, s).journal, txn.path, txn.overlay, skipped, true);
      }
  }

  // ---------------------------------------------------------------------------------------------
  // The changes this connection has made, leaving out commits that changed nothing

  datatype Effect = Effect(path: string, writes: Overlay)

  function Effects(path: string, writes: Overlay): seq<Effect> {
    if writes == [] then [] else [Effect(path, writes)]
  }

  function EffectsOf(publications: seq<Publication>): seq<Effect> {
    if publications == [] then []
    else
      var last := publications[|publications| - 1];
      EffectsOf(publications[..|publications| - 1]) + Effects(last.path, last.writes)
  }

  function OwnEffects(s: Store): seq<Effect> {
    EffectsOf(Own(s.journal))
  }

  lemma EffectsAppend(publications: seq<Publication>, p: Publication)
    ensures EffectsOf(publications + [p]) == EffectsOf(publications) + Effects(p.path, p.writes)
  {
  }

  /**
   `s1` is `s0` with these changes of this connection, and any of others', added to it, under
   generations that keep advancing.
   */
  ghost predicate Adds(s0: Store, s1: Store, effects: seq<Effect>) {
    s0.journal <= s1.journal && OwnEffects(s1) == OwnEffects(s0) + effects && Advances(s0, s1)
  }

  lemma TickedAdds(o: Oracle, s: Store)
    ensures Adds(s, Ticked(o, s), [])
  {
    OwnTicked(o, s);
    TickedAdvances(o, s);
  }

  lemma AddsTwice(s0: Store, s1: Store, s2: Store, some: seq<Effect>, more: seq<Effect>)
    requires Adds(s0, s1, some) && Adds(s1, s2, more)
    ensures Adds(s0, s2, some + more)
  {
  }

  lemma TickedTwiceAdds(o: Oracle, s: Store)
    ensures Adds(s, Ticked(o, Ticked(o, s)), [])
  {
    TickedAdds(o, s);
    TickedAdds(o, Ticked(o, s));
    AddsTwice(s, Ticked(o, s), Ticked(o, Ticked(o, s)), [], []);
  }

  lemma BeginAdds(o: Oracle, s: Store, path: string)
    ensures Adds(s, BeginOf(o, s, path).store, [])
  {
    TickedAdds(o, s);
  }

  lemma RunAdds(o: Oracle, s: Store, txn: Txn, statement: string)
    ensures Adds(s, RunOf(o, s, txn, statement).store, [])
  {
    TickedAdds(o, s);
  }

  lemma CommitAdds(o: Oracle, s: Store, txn: Txn)
    ensures var k := CommitOf(o, s, txn);
            Adds(s, k.store, if k.generation.Some? then Effects(txn.path, txn.overlay) else [])
  {
    var k := CommitOf(o, s, txn);
    OwnCommit(o, s, txn);
    CommitAdvances(o, s, txn);
    if k.generation.Some? {
      EffectsAppend(Own(s.journal), Publication(txn.path, k.generation.value, txn.overlay, true));
    }
  }

  /** A commit is at or above the generation it was based on, and above it if it changed something. */
  lemma CommitAboveBase(o: Oracle, s: Store, txn: Txn)
    requires Advancing(s.journal) && txn.base <= Generation(s.journal, txn.path)
    ensures var committed := CommitOf(o, s, txn).generation;
            committed.Some? ==> txn.base <= committed.value && (txn.overlay != [] ==> txn.base < committed.value)
  {
    InterferenceAdvances(s.journal, o.foreign(s.tick));
  }

  /** So an auto-committed statement gets a larger generation than the one it was begun at. */
  lemma CommitIsNewer(o: Oracle, s0: Store, path: string, statement: string)
    requires Advancing(s0.journal) && BeginOf(o, s0, path).txn.Some?
    ensures var begun := BeginOf(o, s0, path);
            var ran := RunOf(o, begun.store, begun.txn.value, statement);
            var k := CommitOf(o, ran.store, ran.txn);
            k.generation.Some? && ran.txn.overlay != [] ==> begun.txn.value.base < k.generation.value
  {
    var begun := BeginOf(o, s0, path);
    var ran := RunOf(o, begun.store, begun.txn.value, statement);
    InterferenceAdvances(s0.journal, o.foreign(s0.tick));
    InterferenceAdvances(begun.store.journal, o.foreign(begun.store.tick));
    CommitAboveBase(o, ran.store, ran.txn);
  }

  /**
   The Engine the daemon holds. `active` is the one transaction the Engine's exclusive borrow
   allows, so `Begin` may not be called while there is one, nor the others while there is none.
   */
  class Engine {
    const oracle: Oracle
    var journal: seq<Publication>
    var tick: nat
    var active: Option<Txn>

    constructor (oracle: Oracle, journal: seq<Publication>)
      ensures this.oracle == oracle && State() == Store(journal, 0) && active == None
    {
      this.oracle, this.journal, this.tick, this.active := oracle, journal, 0, None;
    }

    ghost function State(): Store
      reads this`journal, this`tick
    {
      Store(journal, tick)
    }

    method Tick()
      modifies this`journal, this`tick
      ensures State() == Ticked(oracle, old(State()))
    {
      journal := Interfere(journal, oracle.foreign(tick));
      tick := tick + 1;
    }

    method ReadCatalogFile() returns (file: CatalogFile)
      modifies this`journal, this`tick
      ensures State() == Ticked(oracle, old(State())) && file == oracle.files(old(tick))
    {
      file := oracle.files(tick);
      Tick();
    }

    /** `Database::open`. */
    method OpenDatabase(path: string) returns (ok: bool)
      modifies this`journal, this`tick
      ensures State() == Ticked(oracle, old(State())) && ok == oracle.open(old(tick))
    {
      ok := oracle.open(tick);
      Tick();
    }

    method Begin(path: string) returns (begun: bool)
      requires active == None
      modifies this
      ensures Begun(State(), active) == BeginOf(oracle, old(State()), path)
      ensures begun == active.Some?
    {
      var choice := oracle.begin(tick);
      Tick();
      match choice {
        case MayNotBegin =>
        case MayBegin(lag) =>
          var current := Generation(journal, path);
          active := Some(Txn(path, if lag <= current then current - lag else 0, []));
      }
      begun := active.Some?;
    }

    method Run(statement: string) returns (result: RunResult)
      requires active.Some?
      modifies this
      ensures active.Some?
      ensures Ran(State(), active.value, result) == RunOf(oracle, old(State()), old(active.value), statement)
    {
      var choice := oracle.run(tick, active.value.overlay, statement);
      Tick();
      active := Some(active.value.(overlay := choice.overlay));
      result := choice.result;
    }

    /** Consumes the transaction, whatever comes of the attempt. */
    method Commit() returns (generation: Option<nat>)
      requires active.Some?
      modifies this
      ensures active == None
      ensures CommitResult(State(), generation) == CommitOf(oracle, old(State()), old(active.value))
    {
      var txn := active.value;
      var choice := oracle.commit(tick);
      Tick();
      active := None;
      match choice {
        case MayNotCommit => generation := None;
        case MayCommit(skipped, publishEmpty) =>
          if txn.overlay != [] || publishEmpty {
            journal := Publish(journal, txn.path, txn.overlay, skipped, true);
            generation := Some(journal[|journal| - 1].generation);
          } else {
            generation := Some(Generation(journal, txn.path));
          }
      }
    }

    method Rollback()
      requires active.Some?
      modifies this`active
      ensures active == None
    {
      active := None;
    }
  }
}
