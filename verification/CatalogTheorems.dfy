/**
 What the catalog promises over whole documents and whole histories: parsing and printing undo each
 other, parsing reports every problem, and no mutation loses what this build does not understand.
 */
module CatalogTheorems {
  import opened Wrappers
  import opened Json
  import opened Ordering
  import opened Catalog
  import Message

  predicate EntryWellFormed(name: string, entry: Entry) {
    Registrable(name) && PathProblemOf(entry.path) == None && "path" !in entry.unknown
  }

  /** The invariant of every reachable catalog: the members it keeps are never its own. */
  predicate WellFormed(c: Contents) {
    && OWN_MEMBERS !! c.unknown.Keys
    && forall name :: name in c.databases ==> EntryWellFormed(name, c.databases[name])
  }

  // ---------------------------------------------------------------------------------------------
  // Every problem, once, in key order

  function SubjectOf(problem: Problem): string {
    match problem
    case BadName(name, _) => name
    case BadEntry(name, _) => name
    case _ => ""
  }

  ghost predicate IsReportOf(problems: seq<Problem>, members: Members, names: set<string>)
    requires names <= members.Keys
  {
    && (forall i :: 0 <= i < |problems| ==>
          && SubjectOf(problems[i]) in names
          && ProblemOf(SubjectOf(problems[i]), members[SubjectOf(problems[i])]) == Some(problems[i]))
    && (forall i, j :: 0 <= i < j < |problems| ==> Less(SubjectOf(problems[i]), SubjectOf(problems[j])))
    && (forall name :: name in names && ProblemOf(name, members[name]).Some? ==>
          ProblemOf(name, members[name]).value in problems)
  }

  /** A report of the later names, and before it whatever the least name is reported with. */
  lemma ReportMore(members: Members, names: set<string>, name: string, tail: seq<Problem>)
    requires names <= members.Keys && IsLeast(name, names) && IsReportOf(tail, members, names - {name})
    ensures IsReportOf(Reported(name, members[name]) + tail, members, names)
  {
  }

  lemma {:induction false} ListedIsReport(members: Members, names: set<string>)
    requires names <= members.Keys
    ensures IsReportOf(Listed(members, names), members, names)
    decreases |names|
  {
    if names == {} {
    } else {
      var name := Least(names);
      var tail := Listed(members, names - {name});
      ListedIsReport(members, names - {name});
      ReportMore(members, names, name, tail);
    }
  }

  lemma ReportTail(p: seq<Problem>, members: Members, names: set<string>)
    requires names <= members.Keys && IsReportOf(p, members, names) && p != []
    ensures IsReportOf(p[1..], members, names - {SubjectOf(p[0])})
  {
  }

  /** Being a report determines the list: nothing missing, nothing twice, and one order. */
  lemma {:induction false} ReportIsUnique(p: seq<Problem>, q: seq<Problem>, members: Members, names: set<string>)
    requires names <= members.Keys
    requires IsReportOf(p, members, names) && IsReportOf(q, members, names)
    ensures p == q
  {
    assert p != [] ==> p[0] in q;
    assert q != [] ==> q[0] in p;
    if p != [] && q != [] {
      var i :| 0 <= i < |p| && p[i] == q[0];
      var j :| 0 <= j < |q| && q[j] == p[0];
      if 0 < i && 0 < j {
        LeAntisymmetric(SubjectOf(p[0]), SubjectOf(q[0]));
      }
      assert p[0] == q[0];
      ReportTail(p, members, names);
      ReportTail(q, members, names);
      ReportIsUnique(p[1..], q[1..], members, names - {SubjectOf(p[0])});
    }
  }

  predicate AllSound(members: Members) {
    forall name :: name in members ==> ProblemOf(name, members[name]) == None
  }

  lemma NothingListed(members: Members)
    ensures Listed(members, members.Keys) == [] <==> AllSound(members)
  {
    var listed := Listed(members, members.Keys);
    ListedIsReport(members, members.Keys);
    if listed != [] {
      var name := SubjectOf(listed[0]);
      assert name in members && ProblemOf(name, members[name]) == Some(listed[0]);
    }
  }

  predicate MeetsRules(members: Members) {
    match Get(members, "databases")
    case Some(Obj(databases)) => AllSound(databases)
    case _ => false
  }

  /** A document of a version this build reads is accepted exactly when it meets every rule. */
  lemma ParseAcceptsExactly(members: Members)
    requires VersionRejection(members) == None
    ensures ParseOf(Some(Obj(members))).Ok? <==> MeetsRules(members)
  {
    NothingListed(DatabasesOf(members).members);
  }

  lemma ListedAreOfEntries(members: Members)
    ensures forall p :: p in Listed(members, members.Keys) ==> p.BadName? || p.BadEntry?
    ensures members == map[] ==> Listed(members, members.Keys) == []
  {
    ListedIsReport(members, members.Keys);
  }

  /** What is said of a version before anything else is looked at. */
  predicate VersionRejectedAs(members: Members, code: Code, problem: Problem) {
    match problem
    case VersionAbsent => code == CatalogInvalid && "catalog_version" !in members
    case VersionNotPositive =>
      && code == CatalogInvalid && "catalog_version" in members
      && forall n :: members["catalog_version"] == Num(Integer(n)) ==> n < 1 || U64_LIMIT <= n
    case VersionUnsupported(version) =>
      && code == CatalogVersionUnsupported && 1 < version < U64_LIMIT
      && Get(members, "catalog_version") == Some(Num(Integer(version)))
    case _ => false
  }

  /** And of a document before any entry of it is. */
  predicate RejectedAs(document: Option<Json>, code: Code, problem: Problem) {
    match document
    case None => code == CatalogInvalid && problem == NotJson
    case Some(Obj(members)) => VersionRejectedAs(members, code, problem)
    case Some(_) => code == CatalogInvalid && problem == NotObject
  }

  lemma VersionRejectedExactly(members: Members, code: Code, problem: Problem)
    ensures VersionRejection(members) == Some(Rejection(code, [problem])) <==>
            VersionRejectedAs(members, code, problem)
  {
    var rejection := VersionRejection(members);
    if rejection.Some? {
      assert rejection.value.problems == [problem] ==> rejection.value.problems[0] == problem;
    }
  }

  /** Past its version a document is reported for `databases` and what is in them. */
  predicate OfDatabases(problem: Problem) {
    problem.DatabasesAbsent? || problem.DatabasesNotObject? || problem.BadName? || problem.BadEntry?
  }

  lemma PastVersion(members: Members)
    requires VersionRejection(members) == None && ParseMembers(members).Err?
    ensures ParseMembers(members).error.code == CatalogInvalid
    ensures forall p :: p in ParseMembers(members).error.problems ==> OfDatabases(p)
  {
    ListedAreOfEntries(DatabasesOf(members).members);
  }

  /**
   A document is rejected with one problem of its own exactly where it is no JSON, no object, or of no
   version this build reads.
   */
  lemma RejectedExactly(document: Option<Json>, code: Code, problem: Problem)
    requires !OfDatabases(problem)
    ensures ParseOf(document) == Err(Rejection(code, [problem])) <==> RejectedAs(document, code, problem)
  {
    if document.Some? && document.value.Obj? {
      var members := document.value.members;
      VersionRejectedExactly(members, code, problem);
      if VersionRejection(members) == None && ParseMembers(members).Err? {
        PastVersion(members);
        assert problem in [problem];
      }
    } else {
      assert ParseOf(document).error.problems == [problem] ==> ParseOf(document).error.problems[0] == problem;
    }
  }

  /** The code for an unsupported version is given exactly where the version is a whole number above one. */
  lemma UnsupportedExactly(members: Members)
    ensures ParseOf(Some(Obj(members))).Err? && ParseOf(Some(Obj(members))).error.code == CatalogVersionUnsupported <==>
            exists version :: VersionRejectedAs(members, CatalogVersionUnsupported, VersionUnsupported(version))
  {
    if VersionRejection(members) == None {
      if ParseMembers(members).Err? {
        PastVersion(members);
      }
      forall version ensures !VersionRejectedAs(members, CatalogVersionUnsupported, VersionUnsupported(version)) {
        VersionRejectedExactly(members, CatalogVersionUnsupported, VersionUnsupported(version));
      }
    } else {
      var rejection := VersionRejection(members).value;
      VersionRejectedExactly(members, rejection.code, rejection.problems[0]);
      forall version | VersionRejectedAs(members, CatalogVersionUnsupported, VersionUnsupported(version))
        ensures rejection.code == CatalogVersionUnsupported
      {
        VersionRejectedExactly(members, CatalogVersionUnsupported, VersionUnsupported(version));
      }
    }
  }

  /** And past its version, for `databases` that are missing or no object: that, and nothing more. */
  lemma DatabasesRejectedExactly(members: Members, problem: Problem)
    requires VersionRejection(members) == None && (problem.DatabasesAbsent? || problem.DatabasesNotObject?)
    ensures ParseOf(Some(Obj(members))) == Err(Rejection(CatalogInvalid, [problem])) <==>
            if problem.DatabasesAbsent? then "databases" !in members
            else "databases" in members && !members["databases"].Obj?
  {
    var databases := DatabasesOf(members);
    var problems := databases.problems + Listed(databases.members, databases.members.Keys);
    ListedAreOfEntries(databases.members);
    assert problems == [problem] ==> problem in problems;
    if databases.problems != [] {
      assert problems == databases.problems;
    }
  }

  /**
   A document of a version this build reads and does not accept is reported with the one problem
   of a missing or ill-typed `databases`, if it has it, and then with each offending entry exactly
   once, in key order.
   */
  lemma ParseReportsEveryProblem(members: Members)
    requires VersionRejection(members) == None && !MeetsRules(members)
    ensures var databases := DatabasesOf(members);
            exists report ::
              && IsReportOf(report, databases.members, databases.members.Keys)
              && ParseOf(Some(Obj(members))) == Err(Rejection(CatalogInvalid, databases.problems + report))
  {
    var databases := DatabasesOf(members);
    ListedIsReport(databases.members, databases.members.Keys);
    ParseAcceptsExactly(members);
  }

  // ---------------------------------------------------------------------------------------------
  // Parsing and printing are inverse

  lemma PrintedEntryReads(name: string, entry: Entry)
    requires EntryWellFormed(name, entry)
    ensures ProblemOf(name, EntryDocument(entry)) == None
    ensures EntryFrom(EntryDocument(entry)) == Ok(entry)
  {
    var members := entry.unknown["path" := Str(entry.path)];
    assert members - {"path"} == entry.unknown;
  }

  lemma ReadEntryPrints(name: string, value: Json)
    requires ProblemOf(name, value) == None
    ensures EntryWellFormed(name, EntryFrom(value).value)
    ensures EntryDocument(EntryFrom(value).value) == value
  {
  }

  lemma PrintedEntriesRead(databases: map<string, Entry>)
    requires forall name :: name in databases ==> EntryWellFormed(name, databases[name])
    ensures var members := DatabasesDocument(databases);
            AllSound(members) && Sound(members, members.Keys) == databases
  {
    var members := DatabasesDocument(databases);
    forall name | name in members
      ensures ProblemOf(name, members[name]) == None && EntryFrom(members[name]) == Ok(databases[name])
    {
      PrintedEntryReads(name, databases[name]);
    }
  }

  lemma ReadEntriesPrint(members: Members)
    requires AllSound(members)
    ensures var databases := Sound(members, members.Keys);
            && DatabasesDocument(databases) == members
            && forall name :: name in databases ==> EntryWellFormed(name, databases[name])
  {
    forall name | name in members
      ensures EntryWellFormed(name, EntryFrom(members[name]).value)
      ensures EntryDocument(EntryFrom(members[name]).value) == members[name]
    {
      ReadEntryPrints(name, members[name]);
    }
  }

  lemma DocumentMembers(c: Contents)
    requires WellFormed(c)
    ensures var members := DocumentOf(c).members;
            && Get(members, "catalog_version") == Some(Num(Integer(CURRENT_VERSION)))
            && Get(members, "databases") == Some(Obj(DatabasesDocument(c.databases)))
            && members - OWN_MEMBERS == c.unknown
  {
  }

  lemma PrintedReads(c: Contents)
    requires WellFormed(c)
    ensures ParseOf(Some(DocumentOf(c))) == Ok(c)
  {
    DocumentMembers(c);
    PrintedEntriesRead(c.databases);
    NothingListed(DatabasesDocument(c.databases));
  }

  /** A document accepted under the version rule states the current version. */
  lemma AcceptedMembers(members: Members, databases: Members)
    requires VersionRejection(members) == None
    requires Get(members, "databases") == Some(Obj(databases))
    ensures map["catalog_version" := Num(Integer(CURRENT_VERSION)), "databases" := Obj(databases)]
            + (members - OWN_MEMBERS) == members
  {
  }

  lemma ReadPrints(members: Members)
    requires ParseOf(Some(Obj(members))).Ok?
    ensures var c := ParseOf(Some(Obj(members))).value;
            WellFormed(c) && DocumentOf(c) == Obj(members)
  {
    ParseAcceptsExactly(members);
    var databases := members["databases"].members;
    ReadEntriesPrint(databases);
    AcceptedMembers(members, databases);
  }

  /**
   Parsing and printing undo each other, both ways: a document reads as a catalog exactly when the
   catalog is well formed and prints as that very document, unknown members included.
   */
  lemma ParseAndPrintAreInverse(document: Json, c: Contents)
    ensures ParseOf(Some(document)) == Ok(c) <==> WellFormed(c) && DocumentOf(c) == document
  {
    if WellFormed(c) && DocumentOf(c) == document {
      PrintedReads(c);
    }
    if ParseOf(Some(document)) == Ok(c) {
      ReadPrints(document.members);
    }
  }

  // ---------------------------------------------------------------------------------------------
  // Histories

  datatype Change = Insert(name: string, path: string) | Remove(name: string) | Rewrite

  /** One mutation. `Rewrite` prints the catalog and reads the document back. */
  ghost function Applied(c: Contents, change: Change): Contents {
    match change
    case Insert(name, path) => Inserted(c, name, path)
    case Remove(name) => Removed(c, name)
    case Rewrite =>
      match ParseOf(Some(DocumentOf(c)))
      case Ok(again) => again
      case Err(_) => EMPTY
  }

  ghost function AfterHistory(c: Contents, history: seq<Change>): Contents {
    if history == [] then c else Applied(AfterHistory(c, history[..|history| - 1]), history[|history| - 1])
  }

  lemma AppliedKeepsWellFormed(c: Contents, change: Change)
    requires WellFormed(c)
    ensures WellFormed(Applied(c, change))
    ensures change.Rewrite? ==> Applied(c, change) == c
  {
    if change.Rewrite? {
      PrintedReads(c);
    } else if change.Insert? && InsertProblems(change.name, change.path) == [] {
      assert Registrable(change.name) && PathProblemOf(change.path) == None;
    }
  }

  lemma {:induction false} AfterKeepsWellFormed(c: Contents, history: seq<Change>)
    requires WellFormed(c)
    ensures WellFormed(AfterHistory(c, history))
  {
    if history == [] {
    } else {
      AfterKeepsWellFormed(c, history[..|history| - 1]);
      AppliedKeepsWellFormed(AfterHistory(c, history[..|history| - 1]), history[|history| - 1]);
    }
  }

  /** Where the history starts counting for a name: just after its last removal. */
  function SinceRemoval(history: seq<Change>, name: string): (start: nat)
    ensures start <= |history|
    ensures start > 0 ==> history[start - 1] == Remove(name)
    ensures forall i :: start <= i < |history| ==> history[i] != Remove(name)
  {
    if history == [] then 0
    else if history[|history| - 1] == Remove(name) then |history|
    else SinceRemoval(history[..|history| - 1], name)
  }

  /** The path of the last accepted insertion of a name. */
  function LastPath(history: seq<Change>, name: string): Option<string> {
    if history == [] then None
    else
      match history[|history| - 1]
      case Insert(n, path) =>
        if n == name && InsertProblems(n, path) == [] then Some(path)
        else LastPath(history[..|history| - 1], name)
      case _ => LastPath(history[..|history| - 1], name)
  }

  function EntryOf(c: Contents, name: string): Option<Entry> {
    if name in c.databases then Some(c.databases[name]) else None
  }

  /**
   What a name must refer to after a history, read off the history for that name alone: the last
   path it was given since its last removal, and the members its entry started with unless it was
   removed.
   */
  function Expected(start: Option<Entry>, history: seq<Change>, name: string): Option<Entry> {
    var since := SinceRemoval(history, name);
    var kept := if since == 0 then start else None;
    match LastPath(history[since..], name)
    case None => kept
    case Some(path) => Some(Entry(path, if kept.Some? then kept.value.unknown else map[]))
  }

  lemma ExpectedStep(start: Option<Entry>, history: seq<Change>, name: string)
    requires history != []
    ensures var before := Expected(start, history[..|history| - 1], name);
            Expected(start, history, name) == match history[|history| - 1]
              case Insert(n, path) =>
                if n == name && InsertProblems(n, path) == [] then
                  Some(Entry(path, if before.Some? then before.value.unknown else map[]))
                else before
              case Remove(n) => if n == name then None else before
              case Rewrite => before
  {
    var before, last := history[..|history| - 1], history[|history| - 1];
    var since := SinceRemoval(history, name);
    if last == Remove(name) {
      assert history[since..] == [];
    } else {
      var tail := history[since..];
      assert tail[..|tail| - 1] == before[since..];
    }
  }

  /**
   Preservation over whole mutation histories: top-level unknown members never change, and every
   name refers to exactly what its own part of the history says, so an entry's unknown members
   survive every change but the removal of its name, and no change touches another name.
   */
  lemma {:induction false} HistoryPreserves(c: Contents, history: seq<Change>, name: string)
    requires WellFormed(c)
    ensures AfterHistory(c, history).unknown == c.unknown
    ensures EntryOf(AfterHistory(c, history), name) == Expected(EntryOf(c, name), history, name)
  {
    if history == [] {
      assert history[0..] == [];
    } else {
      var before := history[..|history| - 1];
      HistoryPreserves(c, before, name);
      AfterKeepsWellFormed(c, before);
      AppliedKeepsWellFormed(AfterHistory(c, before), history[|history| - 1]);
      ExpectedStep(EntryOf(c, name), history, name);
    }
  }

  /** Whatever its history, a catalog that this build wrote is one this build reads back. */
  lemma ReachableReadsBack(start: CatalogFile, history: seq<Change>)
    requires LoadOf(start).Ok?
    ensures var c := AfterHistory(LoadOf(start).value, history);
            ParseOf(Some(DocumentOf(c))) == Ok(c)
  {
    var c := LoadOf(start).value;
    if start.Readable? {
      ParseAndPrintAreInverse(start.document.value, c);
    }
    AfterKeepsWellFormed(c, history);
    PrintedReads(AfterHistory(c, history));
  }

  // ---------------------------------------------------------------------------------------------
  // Names and the protocol

  /** A name is an ASCII letter or digit, then letters, digits, underscores and hyphens. */
  lemma RegistrableExactly(name: string)
    ensures Registrable(name) <==>
            name != "" && Alphanumeric(name[0]) && forall c :: c in name ==> NameCharacterAllowed(c)
  {
    if name != "" {
      assert name == [name[0]] + name[1..];
    }
  }

  lemma {:induction false} FirstBadIsFirst(s: string, bad: char)
    ensures FirstBad(s) == Some(bad) <==>
            exists i :: 0 <= i < |s| && s[i] == bad && !NameCharacterAllowed(bad)
                        && forall j :: 0 <= j < i ==> NameCharacterAllowed(s[j])
  {
    if s == "" {
    } else {
      FirstBadIsFirst(s[1..], bad);
    }
  }

  /** Which of its rules a name is refused for: the first it breaks, and for the first character that does. */
  lemma NameRefusedExactly(name: string, bad: char)
    ensures NameProblemOf(name) == Some(NameEmpty) <==> name == ""
    ensures NameProblemOf(name) == Some(NameSigil) <==> "@" <= name
    ensures NameProblemOf(name) == Some(NameStart) <==> name != "" && !Alphanumeric(name[0]) && !("@" <= name)
    ensures NameProblemOf(name) == Some(NameCharacter(bad)) <==>
            && name != "" && Alphanumeric(name[0])
            && exists i :: 0 < i < |name| && name[i] == bad && !NameCharacterAllowed(bad)
                           && forall j :: 0 < j < i ==> NameCharacterAllowed(name[j])
  {
    if name != "" {
      FirstBadIsFirst(name[1..], bad);
    }
  }

  /** An entry is read from an object whose `path` is an absolute one, and carries all its other members. */
  lemma EntryReadExactly(value: Json, entry: Entry)
    ensures EntryFrom(value) == Ok(entry) <==>
            && value.Obj? && Get(value.members, "path") == Some(Str(entry.path)) && "/" <= entry.path
            && entry.unknown == value.members - {"path"}
  {
  }

  /** What is wrong with one that cannot be. */
  lemma EntryRefusedExactly(value: Json, what: EntryProblem)
    ensures EntryFrom(value) == Err(what) <==>
            match what
            case EntryNotObject => !value.Obj?
            case PathAbsent => value.Obj? && "path" !in value.members
            case PathNotString => value.Obj? && "path" in value.members && !value.members["path"].Str?
            case PathEmpty => value.Obj? && Get(value.members, "path") == Some(Str(""))
            case PathRelative =>
              && value.Obj? && "path" in value.members && value.members["path"].Str?
              && value.members["path"].text != "" && !("/" <= value.members["path"].text)
  {
  }

  /** An insertion is accepted exactly for a registrable name and an absolute path; else nothing changes. */
  lemma InsertedExactly(c: Contents, name: string, path: string)
    ensures InsertProblems(name, path) == [] <==> Registrable(name) && "/" <= path
    ensures Registrable(name) && "/" <= path ==>
              && Inserted(c, name, path).unknown == c.unknown
              && Inserted(c, name, path).databases.Keys == c.databases.Keys + {name}
              && Inserted(c, name, path).databases[name].path == path
              && forall other :: other in c.databases && other != name ==>
                   Inserted(c, name, path).databases[other] == c.databases[other]
    ensures !(Registrable(name) && "/" <= path) ==> Inserted(c, name, path) == c
  {
  }

  lemma RegistrableNotPathShaped(name: string)
    requires Registrable(name)
    ensures !Message.PathShaped(name)
  {
    assert forall c :: c in name[1..] ==> NameCharacterAllowed(c);
    assert name == [name[0]] + name[1..];
  }

  /**
   Every registrable name is addressable: a request that names what a loaded catalog holds is never
   refused as a path, and no name the decoder refuses as a path is one a loaded catalog holds.
   */
  lemma RegisteredNamesAreAddressable(file: CatalogFile, history: seq<Change>, name: string)
    requires LoadOf(file).Ok? && name in AfterHistory(LoadOf(file).value, history).databases
    ensures !Message.PathShaped(name)
  {
    var c := LoadOf(file).value;
    if file.Readable? {
      ParseAndPrintAreInverse(file.document.value, c);
    }
    AfterKeepsWellFormed(c, history);
    RegistrableNotPathShaped(name);
  }

  /** The converse does not hold: the decoder lets names through that no catalog can register. */
  lemma AddressableNotRegistrable()
    ensures !Message.PathShaped("a b") && !Registrable("a b")
  {
  }
}
