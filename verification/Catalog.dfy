/**
 The named database catalog (src/catalog.rs): the rules a document is held to, the document a
 catalog prints to, and the mutations that carry unknown members along.

 A path is a UTF-8 string, so printing one is the identity. A problem keeps its rule and the name
 or value it is about; its wording is not modelled.
 */
module Catalog {
  import opened Wrappers
  import opened Json
  import opened Ordering

  const SUPPORTED_VERSIONS: seq<nat> := [1]
  const CURRENT_VERSION := 1

  datatype Code = CatalogInvalid | CatalogVersionUnsupported

  datatype NameProblem = NameEmpty | NameSigil | NameStart | NameCharacter(bad: char)

  datatype EntryProblem = EntryNotObject | PathAbsent | PathNotString | PathEmpty | PathRelative

  datatype Problem =
    | NotJson
    | NotObject
    | VersionAbsent
    | VersionNotPositive
    | VersionUnsupported(version: nat)
    | DatabasesAbsent
    | DatabasesNotObject
    | BadName(name: string, why: NameProblem)
    | BadEntry(name: string, what: EntryProblem)

  datatype Rejection = Rejection(code: Code, problems: seq<Problem>)

  datatype Entry = Entry(path: string, unknown: Members)

  /** A catalog as a value: what the class below holds in its two fields. */
  datatype Contents = Contents(databases: map<string, Entry>, unknown: Members)

  const EMPTY := Contents(map[], map[])

  // ---------------------------------------------------------------------------------------------
  // The name and path rules

  predicate Alphanumeric(c: char) {
    'a' <= c <= 'z' || 'A' <= c <= 'Z' || '0' <= c <= '9'
  }

  predicate NameCharacterAllowed(c: char) {
    Alphanumeric(c) || c == '_' || c == '-'
  }

  function FirstBad(s: string): (bad: Option<char>)
    ensures bad == None <==> forall c :: c in s ==> NameCharacterAllowed(c)
  {
    if s == "" then None
    else if NameCharacterAllowed(s[0]) then FirstBad(s[1..])
    else Some(s[0])
  }

  function NameProblemOf(name: string): Option<NameProblem> {
    if name == "" then Some(NameEmpty)
    else if name[0] == '@' then Some(NameSigil)
    else if !Alphanumeric(name[0]) then Some(NameStart)
    else
      match FirstBad(name[1..])
      case Some(bad) => Some(NameCharacter(bad))
      case None => None
  }

  predicate Registrable(name: string) {
    NameProblemOf(name) == None
  }

  function PathProblemOf(path: string): Option<EntryProblem> {
    if path == "" then Some(PathEmpty)
    else if path[0] != '/' then Some(PathRelative)
    else None
  }

  function EntryFrom(value: Json): Result<Entry, EntryProblem> {
    match value
    case Obj(members) =>
      (match Get(members, "path")
       case None => Err(PathAbsent)
       case Some(Str(path)) =>
         (match PathProblemOf(path)
          case Some(problem) => Err(problem)
          case None => Ok(Entry(path, members - {"path"})))
       case Some(_) => Err(PathNotString))
    case _ => Err(EntryNotObject)
  }

  // ---------------------------------------------------------------------------------------------
  // Reading a document

  /** The problem that one member of `databases` is reported with, if any. */
  function ProblemOf(name: string, value: Json): Option<Problem> {
    match NameProblemOf(name)
    case Some(why) => Some(BadName(name, why))
    case None =>
      match EntryFrom(value)
      case Err(what) => Some(BadEntry(name, what))
      case Ok(_) => None
  }

  function Reported(name: string, value: Json): seq<Problem> {
    match ProblemOf(name, value)
    case Some(problem) => [problem]
    case None => []
  }

  /** The problems of the named members, in key order. */
  ghost function Listed(members: Members, names: set<string>): seq<Problem>
    requires names <= members.Keys
    decreases |names|
  {
    if names == {} then
      []
    else
      var name := Least(names);
      Reported(name, members[name]) + Listed(members, names - {name})
  }

  function Sound(members: Members, names: set<string>): map<string, Entry> {
    map name | name in members && name in names && ProblemOf(name, members[name]) == None ::
      EntryFrom(members[name]).value
  }

  lemma ListedFirst(members: Members, names: set<string>, name: string)
    requires names <= members.Keys && IsLeast(name, names)
    ensures Listed(members, names) == Reported(name, members[name]) + Listed(members, names - {name})
  {
    LeastUnique(name, Least(names), names);
  }

  lemma Append(a: seq<Problem>, b: seq<Problem>, c: seq<Problem>)
    ensures a + (b + c) == a + b + c
  {
  }

  lemma SoundMore(members: Members, names: set<string>, name: string)
    requires name in members && name !in names
    ensures Sound(members, names + {name})
         == if ProblemOf(name, members[name]) == None
            then Sound(members, names)[name := EntryFrom(members[name]).value]
            else Sound(members, names)
  {
  }

  /** What the version alone decides, before any other member is looked at. */
  function VersionRejection(members: Members): Option<Rejection> {
    match Get(members, "catalog_version")
    case None => Some(Rejection(CatalogInvalid, [VersionAbsent]))
    case Some(value) =>
      match AsU64(Some(value))
      case None => Some(Rejection(CatalogInvalid, [VersionNotPositive]))
      case Some(version) =>
        if version < 1 then Some(Rejection(CatalogInvalid, [VersionNotPositive]))
        else if version !in SUPPORTED_VERSIONS then
          Some(Rejection(CatalogVersionUnsupported, [VersionUnsupported(version)]))
        else None
  }

  datatype Databases = Databases(members: Members, problems: seq<Problem>)

  /** The `databases` member, or no members and the problem with it. */
  function DatabasesOf(members: Members): Databases {
    match Get(members, "databases")
    case None => Databases(map[], [DatabasesAbsent])
    case Some(Obj(databases)) => Databases(databases, [])
    case Some(_) => Databases(map[], [DatabasesNotObject])
  }

  const OWN_MEMBERS := {"catalog_version", "databases"}

  ghost function ParseMembers(members: Members): Result<Contents, Rejection> {
    match VersionRejection(members)
    case Some(rejection) => Err(rejection)
    case None =>
      var databases := DatabasesOf(members);
      var problems := databases.problems + Listed(databases.members, databases.members.Keys);
      if problems == [] then
        Ok(Contents(Sound(databases.members, databases.members.Keys), members - OWN_MEMBERS))
      else
        Err(Rejection(CatalogInvalid, problems))
  }

  ghost function ParseOf(document: Option<Json>): Result<Contents, Rejection> {
    match document
    case None => Err(Rejection(CatalogInvalid, [NotJson]))
    case Some(Obj(members)) => ParseMembers(members)
    case Some(_) => Err(Rejection(CatalogInvalid, [NotObject]))
  }

  // ---------------------------------------------------------------------------------------------
  // Printing and changing a catalog

  function EntryDocument(entry: Entry): Json {
    Obj(entry.unknown["path" := Str(entry.path)])
  }

  function DatabasesDocument(databases: map<string, Entry>): Members {
    map name | name in databases :: EntryDocument(databases[name])
  }

  function DocumentOf(c: Contents): Json {
    Obj(map["catalog_version" := Num(Integer(CURRENT_VERSION)),
            "databases" := Obj(DatabasesDocument(c.databases))] + c.unknown)
  }

  function InsertProblems(name: string, path: string): seq<Problem> {
    (match NameProblemOf(name) case Some(why) => [BadName(name, why)] case None => [])
    + (match PathProblemOf(path) case Some(what) => [BadEntry(name, what)] case None => [])
  }

  function UnknownOf(databases: map<string, Entry>, name: string): Members {
    if name in databases then databases[name].unknown else map[]
  }

  function Inserted(c: Contents, name: string, path: string): Contents {
    if InsertProblems(name, path) != [] then c
    else c.(databases := c.databases[name := Entry(path, UnknownOf(c.databases, name))])
  }

  function Removed(c: Contents, name: string): Contents {
    c.(databases := c.databases - {name})
  }

  datatype LoadError = Rejected(rejection: Rejection) | Unreadable

  /** What reading the catalog file found. */
  datatype CatalogFile = Missing | Unreadable | Readable(document: Option<Json>)

  ghost function LoadOf(file: CatalogFile): Result<Contents, LoadError> {
    match file
    case Missing => Ok(EMPTY)
    case Unreadable => Err(LoadError.Unreadable)
    case Readable(document) =>
      match ParseOf(document)
      case Ok(contents) => Ok(contents)
      case Err(rejection) => Err(Rejected(rejection))
  }

  lemma OneMoreCarried(own: Members, unknown: Members, rest: set<string>, key: string)
    requires key in unknown && key in rest
    ensures own + (unknown - (rest - {key})) == (own + (unknown - rest))[key := unknown[key]]
  {
  }

  class Catalog {
    var databases: map<string, Entry>
    var unknown: Members

    constructor (databases: map<string, Entry>, unknown: Members)
      ensures Value() == Contents(databases, unknown)
    {
      this.databases, this.unknown := databases, unknown;
    }

    ghost function Value(): Contents
      reads this
    {
      Contents(databases, unknown)
    }

    /** A catalog that was never written is an empty one; one that cannot be read is not. */
    static method Load(file: CatalogFile) returns (r: Result<Catalog, LoadError>)
      ensures r.Ok? ==> fresh(r.value) && LoadOf(file) == Ok(r.value.Value())
      ensures r.Err? ==> LoadOf(file) == Err(r.error)
      ensures file.Missing? ==> r.Ok? && r.value.databases == map[] && r.value.unknown == map[]
      ensures file.Unreadable? <==> r == Err(LoadError.Unreadable)
    {
      match file {
        case Missing =>
          var catalog := new Catalog(map[], map[]);
          return Ok(catalog);
        case Unreadable =>
          return Err(LoadError.Unreadable);
        case Readable(document) =>
          var parsed := Parse(document);
          match parsed {
            case Ok(catalog) => return Ok(catalog);
            case Err(rejection) => return Err(Rejected(rejection));
          }
      }
    }

    /** Goes through the whole document, whatever it finds wrong on the way. */
    static method Parse(document: Option<Json>) returns (r: Result<Catalog, Rejection>)
      ensures r.Ok? ==> fresh(r.value) && ParseOf(document) == Ok(r.value.Value())
      ensures r.Err? ==> ParseOf(document) == Err(r.error)
    {
      if document == None {
        return Err(Rejection(CatalogInvalid, [NotJson]));
      }
      if !document.value.Obj? {
        return Err(Rejection(CatalogInvalid, [NotObject]));
      }
      var members := document.value.members;
      match VersionRejection(members) {
        case Some(rejection) => return Err(rejection);
        case None =>
      }
      var problems := DatabasesOf(members).problems;
      var databases := DatabasesOf(members).members;
      var more, entries := ReadEntries(databases);
      problems := problems + more;
      if problems == [] {
        var catalog := new Catalog(entries, members - OWN_MEMBERS);
        return Ok(catalog);
      }
      return Err(Rejection(CatalogInvalid, problems));
    }

    /** The loop over `databases` in key order, filling both accumulators. */
    static method ReadEntries(members: Members) returns (problems: seq<Problem>, entries: map<string, Entry>)
      ensures problems == Listed(members, members.Keys)
      ensures entries == Sound(members, members.Keys)
    {
      problems, entries := [], map[];
      var rest := members.Keys;
      ghost var seen: set<string> := {};
      while rest != {}
        invariant rest <= members.Keys && seen == members.Keys - rest
        invariant problems + Listed(members, rest) == Listed(members, members.Keys)
        invariant entries == Sound(members, seen)
        decreases |rest|
      {
        LeastSome(rest);
        var name :| IsLeast(name, rest);
        ListedFirst(members, rest, name);
        SoundMore(members, seen, name);
        var more;
        more, entries := ReadEntry(name, members[name], entries);
        Append(problems, more, Listed(members, rest - {name}));
        problems := problems + more;
        rest, seen := rest - {name}, seen + {name};
      }
      assert seen == members.Keys;
    }

    static method ReadEntry(name: string, value: Json, entries: map<string, Entry>)
      returns (problems: seq<Problem>, entries': map<string, Entry>)
      ensures problems == Reported(name, value)
      ensures entries' == if ProblemOf(name, value) == None then entries[name := EntryFrom(value).value] else entries
    {
      problems, entries' := [], entries;
      match NameProblemOf(name) {
        case Some(why) =>
          problems := [BadName(name, why)];
        case None =>
          match EntryFrom(value) {
            case Ok(entry) => entries' := entries[name := entry];
            case Err(what) => problems := [BadEntry(name, what)];
          }
      }
    }

    /** What the catalog holds under a name, if anything. */
    function Lookup(name: string): (entry: Option<Entry>)
      reads this
    {
      if name in databases then Some(databases[name]) else None
    }

    /** Points a name at a path. What the name carried before, and this build cannot read, it keeps. */
    method Insert(name: string, path: string) returns (r: Result<(), Rejection>)
      modifies this
      ensures Value() == Inserted(old(Value()), name, path)
      ensures r == if InsertProblems(name, path) == [] then Ok(())
                   else Err(Rejection(CatalogInvalid, InsertProblems(name, path)))
    {
      var problems := [];
      match NameProblemOf(name) {
        case Some(why) => problems := problems + [BadName(name, why)];
        case None =>
      }
      match PathProblemOf(path) {
        case Some(what) => problems := problems + [BadEntry(name, what)];
        case None =>
      }
      assert problems == InsertProblems(name, path);
      if problems != [] {
        return Err(Rejection(CatalogInvalid, problems));
      }
      databases := databases[name := Entry(path, UnknownOf(databases, name))];
      r := Ok(());
    }

    /** Takes a name out. The caller learns whether there was anything to take. */
    method Remove(name: string) returns (found: bool)
      modifies this
      ensures Value() == Removed(old(Value()), name)
      ensures found == (name in old(databases))
    {
      found := name in databases;
      databases := databases - {name};
    }

    method PrintEntries() returns (printed: Members)
      ensures printed == DatabasesDocument(databases)
    {
      printed := map[];
      var rest := databases.Keys;
      while rest != {}
        invariant rest <= databases.Keys
        invariant printed == DatabasesDocument(databases - rest)
        decreases |rest|
      {
        var name :| name in rest;
        printed := printed[name := EntryDocument(databases[name])];
        assert databases - (rest - {name}) == (databases - rest)[name := databases[name]];
        rest := rest - {name};
      }
      assert databases - {} == databases;
    }

    /** Adds the members this build does not know to the document it has printed so far. */
    method CarryUnknown(own: Members) returns (root: Members)
      ensures root == own + unknown
    {
      root := own;
      var rest := unknown.Keys;
      assert own + map[] == own;
      while rest != {}
        invariant rest <= unknown.Keys
        invariant root == own + (unknown - rest)
        decreases |rest|
      {
        var key :| key in rest;
        OneMoreCarried(own, unknown, rest, key);
        root := root[key := unknown[key]];
        rest := rest - {key};
      }
      assert unknown - {} == unknown;
    }

    /** Prints the catalog: its own members first, and then those it only carries. */
    method ToDocument() returns (document: Json)
      ensures document == DocumentOf(Value())
    {
      var printed := PrintEntries();
      var root: Members := map["catalog_version" := Num(Integer(CURRENT_VERSION)), "databases" := Obj(printed)];
      root := CarryUnknown(root);
      document := Obj(root);
    }
  }
}
