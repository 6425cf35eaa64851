/** The migration runner: which files make up the list, and what applying and rolling back
    do to the schema and to the table of applied versions. */
module Migrations {
  import opened Entities
  import opened Int64
  import opened Text
  import opened Extremes

  // ---- loading ----

  datatype Entry = Entry(name: string, isDir: bool, data: string)

  datatype Script = Script(version: int, name: string, upSql: string, downSql: string)

  predicate HasSuffix(s: string, suffix: string) {
    |suffix| <= |s| && s[|s| - |suffix|..] == suffix
  }

  /** The version a file name begins with, for files that take part. */
  function VersionOf(e: Entry): Option<int> {
    if e.isDir || !HasSuffix(e.name, ".sql") then None
    else
      match Cut(e.name, '_')
      case None => None
      case Some((head, _)) => ParseInt64(head)
  }

  function TrimSuffix(s: string, suffix: string): string {
    if HasSuffix(s, suffix) then s[..|s| - |suffix|] else s
  }

  /** What a file is read as: the up or the down script of a version. */
  datatype Role = Role(version: int, up: bool)

  function RoleOf(e: Entry): Option<Role> {
    match VersionOf(e)
    case None => None
    case Some(version) =>
      if HasSuffix(e.name, ".up.sql") then Some(Role(version, true))
      else if HasSuffix(e.name, ".down.sql") then Some(Role(version, false))
      else None
  }

  /** What a file is read as. A file whose name is a number, an underscore and any text before
      the ending is the up script of that version if it ends in .up.sql, and the down script
      if it ends in .down.sql. */
  lemma NamedFileHasRole(head: string, rest: string, data: string)
    requires '_' !in head && ParseInt64(head).Some?
    ensures RoleOf(Entry(head + "_" + rest + ".up.sql", false, data)) == Some(Role(ParseInt64(head).value, true))
    ensures RoleOf(Entry(head + "_" + rest + ".down.sql", false, data)) == Some(Role(ParseInt64(head).value, false))
  {
    UpFileHasRole(head, rest, data);
    DownFileHasRole(head, rest, data);
  }

  lemma UpFileHasRole(head: string, rest: string, data: string)
    requires '_' !in head && ParseInt64(head).Some?
    ensures RoleOf(Entry(head + "_" + rest + ".up.sql", false, data)) == Some(Role(ParseInt64(head).value, true))
  {
    var name := head + "_" + rest + ".up.sql";
    assert name == head + ['_'] + (rest + ".up.sql");
    CutAt(head, '_', rest + ".up.sql");
    EndsIn(name, head + "_" + rest + ".up", ".sql");
    EndsIn(name, head + "_" + rest, ".up.sql");
  }

  lemma DownFileHasRole(head: string, rest: string, data: string)
    requires '_' !in head && ParseInt64(head).Some?
    ensures RoleOf(Entry(head + "_" + rest + ".down.sql", false, data)) == Some(Role(ParseInt64(head).value, false))
  {
    var name := head + "_" + rest + ".down.sql";
    assert name == head + ['_'] + (rest + ".down.sql");
    CutAt(head, '_', rest + ".down.sql");
    EndsIn(name, head + "_" + rest + ".down", ".sql");
    EndsIn(name, head + "_" + rest, ".down.sql");
    EndingsDiffer(name);
  }

  lemma EndsIn(name: string, s: string, suffix: string)
    requires name == s + suffix
    ensures HasSuffix(name, suffix)
  {
    assert name[|s|..] == suffix;
  }

  lemma LetterOfEnding(s: string, suffix: string, k: nat)
    requires HasSuffix(s, suffix) && k < |suffix|
    ensures s[|s| - |suffix| + k] == suffix[k]
  {
    assert s[|s| - |suffix|..][k] == suffix[k];
  }

  lemma EndingsDiffer(s: string)
    ensures !(HasSuffix(s, ".up.sql") && HasSuffix(s, ".down.sql"))
  {
    if HasSuffix(s, ".up.sql") {
      LetterOfEnding(s, ".up.sql", 2);
    }
    if HasSuffix(s, ".down.sql") {
      LetterOfEnding(s, ".down.sql", 4);
    }
  }

  /** A version is usually written with leading zeros; its number is what counts. */
  lemma NumberedFileHasRole(zeros: nat, v: nat, rest: string, data: string)
    requires Fits(v)
    ensures RoleOf(Entry(Zeros(zeros) + FormatNat(v) + "_" + rest + ".up.sql", false, data)) == Some(Role(v, true))
    ensures RoleOf(Entry(Zeros(zeros) + FormatNat(v) + "_" + rest + ".down.sql", false, data)) == Some(Role(v, false))
  {
    var head := Zeros(zeros) + FormatNat(v);
    PaddedParses(zeros, v);
    assert '_' !in head;
    NamedFileHasRole(head, rest, data);
  }

  /** Negative versions, too, are read as written. */
  lemma FormattedFileHasRole(v: int, rest: string, data: string)
    requires Fits(v)
    ensures RoleOf(Entry(FormatInt(v) + "_" + rest + ".up.sql", false, data)) == Some(Role(v, true))
    ensures RoleOf(Entry(FormatInt(v) + "_" + rest + ".down.sql", false, data)) == Some(Role(v, false))
  {
    ParseUndoesFormat(v);
    var digits := FormatNat(if v < 0 then -v else v);
    assert '_' !in digits;
    NamedFileHasRole(FormatInt(v), rest, data);
  }

  /** Directories, names without an underscore or a number before it, and names with neither
      ending have no role. */
  lemma OthersHaveNoRole(e: Entry)
    ensures e.isDir ==> RoleOf(e) == None
    ensures '_' !in e.name ==> RoleOf(e) == None
    ensures !(exists s :: e.name == s + ".up.sql" || e.name == s + ".down.sql") ==> RoleOf(e) == None
    ensures forall head, rest | '_' !in head && ParseInt64(head) == None && e.name == head + "_" + rest ::
      RoleOf(e) == None
  {
    if HasSuffix(e.name, ".up.sql") {
      assert e.name == e.name[..|e.name| - 7] + ".up.sql";
    }
    if HasSuffix(e.name, ".down.sql") {
      assert e.name == e.name[..|e.name| - 9] + ".down.sql";
    }
    forall head, rest | '_' !in head && ParseInt64(head) == None && e.name == head + "_" + rest
      ensures RoleOf(e) == None
    {
      assert e.name == head + ['_'] + rest;
      CutAt(head, '_', rest);
    }
  }

  type Roles = seq<Option<Role>>

  function RolesOf(entries: seq<Entry>): Roles {
    seq(|entries|, i requires 0 <= i < |entries| => RoleOf(entries[i]))
  }

  /** File `k` is the last of the first `n` that has the role. */
  predicate LastWith(roles: Roles, n: nat, role: Role, k: nat)
    requires n <= |roles|
  {
    && k < n && roles[k] == Some(role)
    && forall j | k < j < n :: roles[j] != Some(role)
  }

  /** Of the first `n` files: a version is in the map exactly when a file has it, and then
      the last such file is what the map holds. */
  ghost predicate Collected(roles: Roles, n: nat, up: bool, files: map<int, nat>)
    requires n <= |roles|
  {
    && (forall k | 0 <= k < n && roles[k].Some? && roles[k].value.up == up :: roles[k].value.version in files)
    && (forall v | v in files :: LastWith(roles, n, Role(v, up), files[v]))
  }

  /** The script takes its up half and its name from the last up file of its version, and its
      down half from the last down file, if there is one. */
  ghost predicate IsScriptOf(s: Script, entries: seq<Entry>, roles: Roles)
    requires |roles| == |entries|
  {
    && (exists k: nat :: LastWith(roles, |roles|, Role(s.version, true), k)
          && s.upSql == entries[k].data && s.name == TrimSuffix(entries[k].name, ".up.sql"))
    && (forall k: nat | LastWith(roles, |roles|, Role(s.version, false), k) :: s.downSql == entries[k].data)
    && (Some(Role(s.version, false)) !in roles ==> s.downSql == "")
  }

  /** `list` holds one script for each version that has an up file, in ascending order; of
      several files for the same version and direction the last one counts. */
  ghost predicate IsListOf(list: seq<Script>, entries: seq<Entry>, roles: Roles)
    requires |roles| == |entries|
  {
    && StrictlyAscending(VersionsIn(list))
    && (forall v | Some(Role(v, true)) in roles :: exists i :: 0 <= i < |list| && list[i].version == v)
    && (forall i | 0 <= i < |list| :: IsScriptOf(list[i], entries, roles))
  }

  lemma {:induction false} LastExists(roles: Roles, n: nat, role: Role, j: nat)
    requires j < n <= |roles| && roles[j] == Some(role)
    ensures exists k: nat :: LastWith(roles, n, role, k)
    decreases n - j
  {
    if later: nat :| j < later < n && roles[later] == Some(role) {
      LastExists(roles, n, role, later);
    } else {
      assert LastWith(roles, n, role, j);
    }
  }

  lemma ScriptIsUnique(s: Script, t: Script, entries: seq<Entry>, roles: Roles)
    requires |roles| == |entries|
    requires IsScriptOf(s, entries, roles) && IsScriptOf(t, entries, roles) && s.version == t.version
    ensures s == t
  {
    if j: nat :| j < |roles| && roles[j] == Some(Role(s.version, false)) {
      LastExists(roles, |roles|, Role(s.version, false), j);
    }
  }

  /** The files decide the list: map order and the order of sorting leave no choice. */
  lemma ListIsUnique(a: seq<Script>, b: seq<Script>, entries: seq<Entry>, roles: Roles)
    requires |roles| == |entries|
    requires IsListOf(a, entries, roles) && IsListOf(b, entries, roles)
    ensures a == b
  {
    var p, q := VersionsIn(a), VersionsIn(b);
    forall v ensures v in p <==> v in q {
      HeldExactly(a, entries, roles, v);
      HeldExactly(b, entries, roles, v);
    }
    AscendingIsUnique(p, q);
    assert |a| == |p| == |q| == |b|;
    forall i: nat | i < |a| ensures a[i] == b[i] {
      assert a[i].version == p[i] == q[i] == b[i].version;
      ScriptIsUnique(a[i], b[i], entries, roles);
    }
  }

  function VersionsIn(list: seq<Script>): seq<int> {
    seq(|list|, i requires 0 <= i < |list| => list[i].version)
  }

  /** The list holds exactly the versions that have an up file. */
  lemma HeldExactly(list: seq<Script>, entries: seq<Entry>, roles: Roles, v: int)
    requires |roles| == |entries| && IsListOf(list, entries, roles)
    ensures v in VersionsIn(list) <==> Some(Role(v, true)) in roles
  {
    if v in VersionsIn(list) {
      var i :| 0 <= i < |list| && VersionsIn(list)[i] == v;
      assert IsScriptOf(list[i], entries, roles);
    }
    if Some(Role(v, true)) in roles {
      var i :| 0 <= i < |list| && list[i].version == v;
      assert VersionsIn(list)[i] == v;
    }
  }

  lemma CollectOne(roles: Roles, n: nat, up: bool, files: map<int, nat>)
    requires n < |roles| && Collected(roles, n, up, files)
    ensures roles[n].Some? && roles[n].value.up == up ==>
      Collected(roles, n + 1, up, files[roles[n].value.version := n])
    ensures roles[n].None? || roles[n].value.up != up ==> Collected(roles, n + 1, up, files)
  {
  }

  method SortInts(s: set<int>) returns (sorted: seq<int>)
    ensures StrictlyAscending(sorted)
    ensures forall v :: v in s <==> v in sorted
  {
    sorted := [];
    var rest := s;
    while rest != {}
      invariant StrictlyAscending(sorted)
      invariant forall i, v | 0 <= i < |sorted| && v in rest :: sorted[i] < v
      invariant forall v :: v in s <==> v in sorted || v in rest
      decreases |rest|
    {
      LeastExists(rest);
      var least :| least in rest && forall u | u in rest :: least <= u;
      sorted := sorted + [least];
      rest := rest - {least};
    }
  }

  /** Reads the directory into maps, then lays the versions out in order. The maps keep the
      index of the file, which stands for its contents and its name. */
  method LoadMigrations(entries: seq<Entry>) returns (list: seq<Script>)
    ensures IsListOf(list, entries, RolesOf(entries))
  {
    var upFiles, downFiles := ReadFiles(entries);
    var versions := SortInts(upFiles.Keys);
    ghost var roles := RolesOf(entries);
    list := LayOut(versions, entries, roles, upFiles, downFiles);
    assert VersionsIn(list) == versions;
    forall v | Some(Role(v, true)) in roles
      ensures exists i :: 0 <= i < |list| && list[i].version == v
    {
      var k: nat :| k < |roles| && roles[k] == Some(Role(v, true));
      assert v in upFiles.Keys && v in versions;
      var i :| 0 <= i < |versions| && versions[i] == v;
      assert list[i].version == v;
    }
  }

  method LayOut(versions: seq<int>, entries: seq<Entry>, ghost roles: Roles, upFiles: map<int, nat>,
                downFiles: map<int, nat>)
    returns (list: seq<Script>)
    requires |roles| == |entries|
    requires Collected(roles, |roles|, true, upFiles) && Collected(roles, |roles|, false, downFiles)
    requires forall v | v in versions :: v in upFiles
    ensures |list| == |versions|
    ensures forall k | 0 <= k < |list| :: list[k].version == versions[k] && IsScriptOf(list[k], entries, roles)
  {
    list := [];
    for i := 0 to |versions|
      invariant |list| == i
      invariant forall k | 0 <= k < i :: list[k].version == versions[k] && IsScriptOf(list[k], entries, roles)
    {
      assert versions[i] in versions;
      var script := FillIn(versions[i], entries, roles, upFiles, downFiles);
      list := list + [script];
    }
  }

  method FillIn(version: int, entries: seq<Entry>, ghost roles: Roles, upFiles: map<int, nat>, downFiles: map<int, nat>)
    returns (script: Script)
    requires |roles| == |entries|
    requires Collected(roles, |roles|, true, upFiles) && Collected(roles, |roles|, false, downFiles)
    requires version in upFiles
    ensures script.version == version && IsScriptOf(script, entries, roles)
  {
    assert LastWith(roles, |roles|, Role(version, true), upFiles[version]);
    assert version in downFiles ==> LastWith(roles, |roles|, Role(version, false), downFiles[version]);
    script := Script(version, TrimSuffix(entries[upFiles[version]].name, ".up.sql"), entries[upFiles[version]].data,
      if version in downFiles then entries[downFiles[version]].data else "");
    FilledIn(script, entries, roles, upFiles, downFiles);
  }

  lemma FilledIn(s: Script, entries: seq<Entry>, roles: Roles, upFiles: map<int, nat>, downFiles: map<int, nat>)
    requires |roles| == |entries|
    requires Collected(roles, |roles|, true, upFiles) && Collected(roles, |roles|, false, downFiles)
    requires s.version in upFiles && upFiles[s.version] < |entries|
    requires s.upSql == entries[upFiles[s.version]].data
    requires s.name == TrimSuffix(entries[upFiles[s.version]].name, ".up.sql")
    requires s.version in downFiles ==>
      downFiles[s.version] < |entries| && s.downSql == entries[downFiles[s.version]].data
    requires s.version !in downFiles ==> s.downSql == ""
    ensures IsScriptOf(s, entries, roles)
  {
    assert LastWith(roles, |roles|, Role(s.version, true), upFiles[s.version]);
    forall k: nat | LastWith(roles, |roles|, Role(s.version, false), k) ensures s.downSql == entries[k].data {
      assert s.version in downFiles;
      assert LastWith(roles, |roles|, Role(s.version, false), downFiles[s.version]);
    }
    assert s.version in downFiles ==> LastWith(roles, |roles|, Role(s.version, false), downFiles[s.version]);
  }

  method ReadFiles(entries: seq<Entry>) returns (upFiles: map<int, nat>, downFiles: map<int, nat>)
    ensures Collected(RolesOf(entries), |entries|, true, upFiles)
    ensures Collected(RolesOf(entries), |entries|, false, downFiles)
  {
    ghost var roles := RolesOf(entries);
    upFiles, downFiles := map[], map[];
    for n := 0 to |entries|
      invariant Collected(roles, n, true, upFiles)
      invariant Collected(roles, n, false, downFiles)
    {
      assert roles[n] == RoleOf(entries[n]);
      upFiles, downFiles := ReadFile(entries[n], n, upFiles, downFiles, roles);
    }
  }

  /** Files one entry: under its version, in the map of its direction, or not at all. */
  method ReadFile(entry: Entry, n: nat, upFiles: map<int, nat>, downFiles: map<int, nat>, ghost roles: Roles)
    returns (ups: map<int, nat>, downs: map<int, nat>)
    requires n < |roles| && roles[n] == RoleOf(entry)
    requires Collected(roles, n, true, upFiles) && Collected(roles, n, false, downFiles)
    ensures Collected(roles, n + 1, true, ups) && Collected(roles, n + 1, false, downs)
  {
    CollectOne(roles, n, true, upFiles);
    CollectOne(roles, n, false, downFiles);
    ups, downs := upFiles, downFiles;
    var version := VersionOf(entry);
    if version.None? {
      return;
    }
    if HasSuffix(entry.name, ".up.sql") {
      ups := ups[version.value := n];
    } else if HasSuffix(entry.name, ".down.sql") {
      downs := downs[version.value := n];
    }
  }

  // ---- a directory of pairs ----

  /** A migration as its author writes it: a number, a title, and the texts of its two files. */
  datatype Pair = Pair(number: string, title: string, up: string, down: string)

  predicate WellNumbered(p: Pair) {
    '_' !in p.number && ParseInt64(p.number).Some?
  }

  function NumberOf(p: Pair): int
    requires WellNumbered(p)
  {
    ParseInt64(p.number).value
  }

  ghost predicate InOrder(pairs: seq<Pair>) {
    && (forall i | 0 <= i < |pairs| :: WellNumbered(pairs[i]))
    && forall i, j | 0 <= i < j < |pairs| :: NumberOf(pairs[i]) < NumberOf(pairs[j])
  }

  /** The directory, listed by name: of each pair the down file, then the up file. */
  function Directory(pairs: seq<Pair>): seq<Entry> {
    seq(2 * |pairs|, k requires 0 <= k < 2 * |pairs| => FileAt(pairs, k))
  }

  function FileAt(pairs: seq<Pair>, k: nat): Entry
    requires k < 2 * |pairs|
  {
    var p := pairs[k / 2];
    if k % 2 == 0 then Entry(p.number + "_" + p.title + ".down.sql", false, p.down)
    else Entry(p.number + "_" + p.title + ".up.sql", false, p.up)
  }

  function ScriptOf(p: Pair): Script
    requires WellNumbered(p)
  {
    Script(NumberOf(p), p.number + "_" + p.title, p.up, p.down)
  }

  lemma DirectoryRoles(pairs: seq<Pair>, k: nat)
    requires InOrder(pairs) && k < 2 * |pairs|
    ensures RolesOf(Directory(pairs))[k] == Some(Role(NumberOf(pairs[k / 2]), k % 2 == 1))
  {
    var p := pairs[k / 2];
    if k % 2 == 0 {
      DownFileHasRole(p.number, p.title, p.down);
    } else {
      UpFileHasRole(p.number, p.title, p.up);
    }
    assert RolesOf(Directory(pairs))[k] == RoleOf(FileAt(pairs, k));
  }

  /** Each file of the directory is the only one of its role. */
  lemma OnlyFileOfItsRole(pairs: seq<Pair>, roles: Roles, k: nat)
    requires InOrder(pairs) && k < 2 * |pairs| == |roles|
    requires forall j | 0 <= j < |roles| :: roles[j] == Some(Role(NumberOf(pairs[j / 2]), j % 2 == 1))
    ensures var role := Role(NumberOf(pairs[k / 2]), k % 2 == 1);
      forall j: nat :: LastWith(roles, |roles|, role, j) <==> j == k
  {
    var role := Role(NumberOf(pairs[k / 2]), k % 2 == 1);
    forall j | 0 <= j < |roles| && roles[j] == Some(role)
      ensures j == k
    {
      var a, b := j / 2, k / 2;
      assert a < b || a == b || b < a;
    }
  }

  lemma NameOfUpFile(number: string, title: string)
    ensures TrimSuffix(number + "_" + title + ".up.sql", ".up.sql") == number + "_" + title
  {
    var base := number + "_" + title;
    EndsIn(base + ".up.sql", base, ".up.sql");
    assert (base + ".up.sql")[..|base|] == base;
  }

  lemma ScriptOfPair(pairs: seq<Pair>, roles: Roles, i: nat)
    requires InOrder(pairs) && i < |pairs| && |roles| == 2 * |pairs|
    requires forall j | 0 <= j < |roles| :: roles[j] == Some(Role(NumberOf(pairs[j / 2]), j % 2 == 1))
    ensures IsScriptOf(ScriptOf(pairs[i]), Directory(pairs), roles)
  {
    var entries := Directory(pairs);
    OnlyFileOfItsRole(pairs, roles, 2 * i);
    OnlyFileOfItsRole(pairs, roles, 2 * i + 1);
    NameOfUpFile(pairs[i].number, pairs[i].title);
    assert (2 * i) / 2 == i && (2 * i) % 2 == 0 && (2 * i + 1) / 2 == i && (2 * i + 1) % 2 == 1;
    assert entries[2 * i] == FileAt(pairs, 2 * i) && entries[2 * i + 1] == FileAt(pairs, 2 * i + 1);
    assert LastWith(roles, |roles|, Role(NumberOf(pairs[i]), true), 2 * i + 1);
    assert roles[2 * i] == Some(Role(NumberOf(pairs[i]), false));
  }

  /** A directory of pairs is loaded as the pairs it was made of: in the order of their
      numbers, each with its own up text and its own down text. */
  lemma PairsAreLoaded(pairs: seq<Pair>, list: seq<Script>)
    requires InOrder(pairs) && IsListOf(list, Directory(pairs), RolesOf(Directory(pairs)))
    ensures |list| == |pairs| && forall i | 0 <= i < |pairs| :: list[i] == ScriptOf(pairs[i])
  {
    var roles := RolesOf(Directory(pairs));
    forall j | 0 <= j < |roles|
      ensures roles[j] == Some(Role(NumberOf(pairs[j / 2]), j % 2 == 1))
    {
      DirectoryRoles(pairs, j);
    }
    var wanted := seq(|pairs|, i requires 0 <= i < |pairs| && InOrder(pairs) => ScriptOf(pairs[i]));
    PairsAreAList(pairs, wanted, roles);
    ListIsUnique(list, wanted, Directory(pairs), roles);
  }

  lemma PairsAreAList(pairs: seq<Pair>, wanted: seq<Script>, roles: Roles)
    requires InOrder(pairs) && |roles| == 2 * |pairs| && |wanted| == |pairs|
    requires forall j | 0 <= j < |roles| :: roles[j] == Some(Role(NumberOf(pairs[j / 2]), j % 2 == 1))
    requires forall i | 0 <= i < |pairs| :: wanted[i] == ScriptOf(pairs[i])
    ensures IsListOf(wanted, Directory(pairs), roles)
  {
    forall i | 0 <= i < |wanted|
      ensures IsScriptOf(wanted[i], Directory(pairs), roles)
    {
      ScriptOfPair(pairs, roles, i);
    }
    forall v | Some(Role(v, true)) in roles
      ensures exists i :: 0 <= i < |wanted| && wanted[i].version == v
    {
      var j :| 0 <= j < |roles| && roles[j] == Some(Role(v, true));
      assert wanted[j / 2].version == v;
    }
  }

  // ---- applying ----

  /** A migration as the database sees it: its scripts as functions of the schema. A missing
      or empty down script is None. */
  datatype Migration<!S> = Migration(version: int, up: S -> S, down: Option<S -> S>)

  /** The list as loaded, with `exec` for what running a script does. */
  function Loaded<S>(list: seq<Script>, exec: string -> S -> S): seq<Migration<S>> {
    seq(|list|, i requires 0 <= i < |list| =>
      Migration(list[i].version, exec(list[i].upSql),
        if list[i].downSql == "" then None else Some(exec(list[i].downSql))))
  }

  datatype Db<S> = Db(applied: set<int>, schema: S)

  ghost predicate Ascending<S>(migs: seq<Migration<S>>) {
    forall i, j | 0 <= i < j < |migs| :: migs[i].version < migs[j].version
  }

  function Versions<S>(migs: seq<Migration<S>>): set<int> {
    set i | 0 <= i < |migs| :: migs[i].version
  }

  /** The schema after the first `k` migrations. */
  function SchemaAt<S>(init: S, migs: seq<Migration<S>>, k: nat): S
    requires k <= |migs|
  {
    if k == 0 then init else migs[k - 1].up(SchemaAt(init, migs, k - 1))
  }

  /** The database is where applying exactly the first `k` migrations leads. */
  ghost predicate AtPrefix<S>(db: Db<S>, init: S, migs: seq<Migration<S>>, k: nat) {
    k <= |migs| && db.applied == Versions(migs[..k]) && db.schema == SchemaAt(init, migs, k)
  }

  /** Each down script takes back its up script, where the up script is applied. */
  ghost predicate Reversible<S>(init: S, migs: seq<Migration<S>>) {
    forall i | 0 <= i < |migs| && migs[i].down.Some? ::
      migs[i].down.value(SchemaAt(init, migs, i + 1)) == SchemaAt(init, migs, i)
  }

  datatype Outcome<S> = Outcome(db: Db<S>, count: nat, ok: bool)

  /** Where the database lets a migration down, if anywhere: looking up its version, or at
      a statement of its transaction. */
  datatype Fault = NoFault | AtCheck | AtBegin | AtScript | AtRecord | AtCommit

  type Faults = nat -> Fault

  /** MigrateUp from migration `i` on. A failed transaction leaves nothing. */
  function Up<S>(db: Db<S>, migs: seq<Migration<S>>, faults: Faults, i: nat): Outcome<S>
    requires i <= |migs|
    decreases |migs| - i
  {
    if i == |migs| then Outcome(db, 0, true)
    else if faults(i).AtCheck? then Outcome(db, 0, false)
    else if migs[i].version in db.applied then Up(db, migs, faults, i + 1)
    else if !faults(i).NoFault? then Outcome(db, 0, false)
    else
      var rest := Up(Db(db.applied + {migs[i].version}, migs[i].up(db.schema)), migs, faults, i + 1);
      rest.(count := rest.count + 1)
  }

  /** The greatest applied version, or 0 when there is none. */
  ghost function Latest(applied: set<int>): (v: int)
    ensures applied == {} ==> v == 0
    ensures applied != {} ==> v in applied && forall u | u in applied :: u <= v
  {
    if applied == {} then 0
    else
      GreatestExists(applied);
      var v :| v in applied && forall u | u in applied :: u <= v;
      v
  }

  /** The position of the migration with a version, if the list has it. */
  function Position<S>(migs: seq<Migration<S>>, version: int, i: nat): (r: Option<nat>)
    requires i <= |migs|
    ensures r.Some? ==> i <= r.value < |migs| && migs[r.value].version == version
    ensures r.None? ==> forall j | i <= j < |migs| :: migs[j].version != version
    decreases |migs| - i
  {
    if i == |migs| then None
    else if migs[i].version == version then Some(i)
    else Position(migs, version, i + 1)
  }

  /** MigrateDown: takes back the latest applied migration. */
  ghost function Down<S>(db: Db<S>, migs: seq<Migration<S>>, fault: Fault): Outcome<S> {
    var latest := Latest(db.applied);
    if fault.AtCheck? then Outcome(db, 0, false)
    else if latest == 0 then Outcome(db, 0, true)
    else
      match Position(migs, latest, 0)
      case None => Outcome(db, 0, false)
      case Some(i) =>
        if migs[i].down.None? || !fault.NoFault? then Outcome(db, 0, false)
        else Outcome(Db(db.applied - {latest}, migs[i].down.value(db.schema)), 1, true)
  }

  // ---- what every run keeps ----

  lemma LoadedIsAscending<S>(list: seq<Script>, exec: string -> S -> S)
    requires StrictlyAscending(VersionsIn(list))
    ensures Ascending(Loaded(list, exec))
  {
    var migs, versions := Loaded(list, exec), VersionsIn(list);
    assert forall i | 0 <= i < |list| :: migs[i].version == versions[i];
  }


  lemma VersionsSnoc<S>(migs: seq<Migration<S>>, k: nat)
    requires k < |migs|
    ensures Versions(migs[..k + 1]) == Versions(migs[..k]) + {migs[k].version}
  {
    assert migs[..k + 1] == migs[..k] + [migs[k]];
    assert forall i | 0 <= i < k :: migs[..k + 1][i] == migs[..k][i];
    assert migs[..k + 1][k] == migs[k];
  }

  lemma PendingIsNotApplied<S>(migs: seq<Migration<S>>, k: nat, i: nat)
    requires Ascending(migs) && k <= |migs| && i < |migs|
    ensures migs[i].version in Versions(migs[..k]) <==> i < k
  {
    if i < k {
      assert migs[..k][i] == migs[i];
    }
  }

  /** An outcome of Up that stands at a prefix, as far past the first `k` as it counts; it
      is a success only at the end of the list. */
  ghost predicate EndsAtPrefix<S>(r: Outcome<S>, init: S, migs: seq<Migration<S>>, k: nat) {
    AtPrefix(r.db, init, migs, k + r.count) && (r.ok ==> k + r.count == |migs|)
  }

  /** Up, from a prefix: failing or not it ends at a prefix. */
  lemma {:induction false} UpKeepsPrefix<S>(db: Db<S>, init: S, migs: seq<Migration<S>>, faults: Faults, i: nat, k: nat)
    requires Ascending(migs) && i <= k && AtPrefix(db, init, migs, k)
    ensures EndsAtPrefix(Up(db, migs, faults, i), init, migs, k)
    decreases |migs| - i
  {
    if i < |migs| {
      PendingIsNotApplied(migs, k, i);
      if i < k {
        UpKeepsPrefix(db, init, migs, faults, i + 1, k);
        assert Up(db, migs, faults, i)
            == if faults(i).AtCheck? then Outcome(db, 0, false) else Up(db, migs, faults, i + 1);
      } else if faults(i).NoFault? {
        var next := Db(db.applied + {migs[i].version}, migs[i].up(db.schema));
        PrefixGrows(db, init, migs, k);
        UpKeepsPrefix(next, init, migs, faults, i + 1, k + 1);
        UpApplies(db, migs, faults, i);
        CountedOn(Up(next, migs, faults, k + 1), Up(db, migs, faults, k), init, migs, k);
      }
    }
  }

  lemma CountedOn<S>(later: Outcome<S>, r: Outcome<S>, init: S, migs: seq<Migration<S>>, k: nat)
    requires EndsAtPrefix(later, init, migs, k + 1)
    requires r == later.(count := later.count + 1)
    ensures EndsAtPrefix(r, init, migs, k)
  {
    assert k + 1 + later.count == k + r.count;
  }

  lemma UpApplies<S>(db: Db<S>, migs: seq<Migration<S>>, faults: Faults, i: nat)
    requires i < |migs| && migs[i].version !in db.applied && faults(i).NoFault?
    ensures var rest := Up(Db(db.applied + {migs[i].version}, migs[i].up(db.schema)), migs, faults, i + 1);
      && Up(db, migs, faults, i).db == rest.db
      && Up(db, migs, faults, i).count == rest.count + 1
      && Up(db, migs, faults, i).ok == rest.ok
  {
  }

  lemma PrefixGrows<S>(db: Db<S>, init: S, migs: seq<Migration<S>>, k: nat)
    requires k < |migs| && AtPrefix(db, init, migs, k)
    ensures AtPrefix(Db(db.applied + {migs[k].version}, migs[k].up(db.schema)), init, migs, k + 1)
  {
    VersionsSnoc(migs, k);
  }

  /** Up succeeds exactly when no lookup fails and no pending transaction does. */
  lemma {:induction false} UpSucceedsExactly<S>(db: Db<S>, init: S, migs: seq<Migration<S>>, faults: Faults, i: nat,
                                                k: nat)
    requires Ascending(migs) && i <= k && AtPrefix(db, init, migs, k)
    ensures Up(db, migs, faults, i).ok
       <==> forall j | i <= j < |migs| :: faults(j).NoFault? || (j < k && !faults(j).AtCheck?)
    decreases |migs| - i
  {
    if i < |migs| {
      PendingIsNotApplied(migs, k, i);
      if i < k {
        if !faults(i).AtCheck? {
          UpSucceedsExactly(db, init, migs, faults, i + 1, k);
        }
      } else if faults(i).NoFault? {
        var next := Db(db.applied + {migs[i].version}, migs[i].up(db.schema));
        PrefixGrows(db, init, migs, k);
        UpSucceedsExactly(next, init, migs, faults, i + 1, k + 1);
      }
    }
  }

  lemma LatestOfPrefix<S>(migs: seq<Migration<S>>, k: nat)
    requires Ascending(migs) && 0 < k <= |migs|
    ensures Latest(Versions(migs[..k])) == migs[k - 1].version
  {
    var v := Latest(Versions(migs[..k]));
    PendingIsNotApplied(migs, k, k - 1);
    var i :| 0 <= i < k && migs[..k][i].version == v;
    assert migs[i].version == v;
  }

  lemma PositionIsUnique<S>(migs: seq<Migration<S>>, k: nat)
    requires Ascending(migs) && k < |migs|
    ensures Position(migs, migs[k].version, 0) == Some(k)
  {
    var p := Position(migs, migs[k].version, 0);
    assert forall i, j | 0 <= i < j < |migs| :: migs[i].version < migs[j].version;
  }

  /** Down, from a prefix: it rolls back exactly the last migration, and does so exactly
      when there is one, its version is not 0, it has a down script and nothing fails. */
  lemma DownRollsBackExactly<S>(db: Db<S>, init: S, migs: seq<Migration<S>>, fault: Fault, k: nat)
    requires Ascending(migs) && Reversible(init, migs) && AtPrefix(db, init, migs, k)
    ensures var r := Down(db, migs, fault);
      && (r.count == 1 <==> k > 0 && migs[k - 1].version != 0 && migs[k - 1].down.Some? && fault.NoFault?)
      && (r.count == 1 ==> r.ok && AtPrefix(r.db, init, migs, k - 1))
      && (r.count != 1 ==> r.count == 0 && r.db == db)
      && (r.ok <==> r.count == 1 || (!fault.AtCheck? && (k == 0 || migs[k - 1].version == 0)))
  {
    if k == 0 {
      assert migs[..0] == [];
      assert db.applied == {};
    } else {
      LatestOfPrefix(migs, k);
      PositionIsUnique(migs, k - 1);
      VersionsSnoc(migs, k - 1);
      PendingIsNotApplied(migs, k - 1, k - 1);
      assert Versions(migs[..k]) - {migs[k - 1].version} == Versions(migs[..k - 1]);
    }
  }

  datatype Op = UpOp(ensureFails: bool, faults: Faults) | DownOp(ensureFails: bool, fault: Fault)

  ghost function Apply<S>(db: Db<S>, migs: seq<Migration<S>>, op: Op): Outcome<S> {
    if op.ensureFails then Outcome(db, 0, false)
    else match op
      case UpOp(_, faults) => Up(db, migs, faults, 0)
      case DownOp(_, fault) => Down(db, migs, fault)
  }

  ghost function RunOps<S>(init: S, migs: seq<Migration<S>>, ops: seq<Op>): Db<S> {
    if ops == [] then Db({}, init) else Apply(RunOps(init, migs, ops[..|ops| - 1]), migs, ops[|ops| - 1]).db
  }

  /** Every run of ups and downs from an empty database, failing ones included, keeps the
      applied versions a prefix of the list and the schema what that prefix makes of it. */
  lemma {:induction false} EveryRunIsAtAPrefix<S>(init: S, migs: seq<Migration<S>>, ops: seq<Op>)
    requires Ascending(migs) && Reversible(init, migs)
    ensures exists k: nat :: AtPrefix(RunOps(init, migs, ops), init, migs, k)
  {
    if ops == [] {
      assert migs[..0] == [];
      assert AtPrefix(RunOps(init, migs, ops), init, migs, 0);
    } else {
      var n := |ops| - 1;
      EveryRunIsAtAPrefix(init, migs, ops[..n]);
      var before := RunOps(init, migs, ops[..n]);
      var k: nat :| AtPrefix(before, init, migs, k);
      if ops[n].ensureFails {
        assert AtPrefix(RunOps(init, migs, ops), init, migs, k);
      } else if ops[n].UpOp? {
        UpKeepsPrefix(before, init, migs, ops[n].faults, 0, k);
        assert AtPrefix(RunOps(init, migs, ops), init, migs, k + Up(before, migs, ops[n].faults, 0).count);
      } else {
        DownRollsBackExactly(before, init, migs, ops[n].fault, k);
        var left := if Down(before, migs, ops[n].fault).count == 1 then k - 1 else k;
        assert AtPrefix(RunOps(init, migs, ops), init, migs, left);
      }
    }
  }

  /** A list whose one migration is numbered 0 is applied and then never rolled back, though
      it has a down script and nothing fails. */
  lemma VersionZeroStays<S>(init: S, up: S -> S, down: S -> S)
    ensures var migs := [Migration(0, up, Some(down))];
      var applied := RunOps(init, migs, [UpOp(false, _ => NoFault)]);
      && applied == Db({0}, up(init))
      && Down(applied, migs, NoFault) == Outcome(applied, 0, true)
  {
    var migs := [Migration(0, up, Some(down))];
    var op := UpOp(false, _ => NoFault);
    assert [op][..0] == [];
    assert RunOps(init, migs, []) == Db({}, init);
    assert Up(Db({}, init), migs, op.faults, 0) == Outcome(Db({} + {0}, up(init)), 1, true);
    assert {} + {0} == {0};
  }

  /** After any run, a MigrateUp that succeeds returns the number of migrations that were
      pending, and leaves none. */
  lemma UpCountsPending<S>(init: S, migs: seq<Migration<S>>, ops: seq<Op>, faults: Faults)
    requires Ascending(migs) && Reversible(init, migs)
    requires Up(RunOps(init, migs, ops), migs, faults, 0).ok
    ensures Up(RunOps(init, migs, ops), migs, faults, 0).count == |Versions(migs) - RunOps(init, migs, ops).applied|
    ensures AtPrefix(Up(RunOps(init, migs, ops), migs, faults, 0).db, init, migs, |migs|)
  {
    EveryRunIsAtAPrefix(init, migs, ops);
    var k: nat :| AtPrefix(RunOps(init, migs, ops), init, migs, k);
    CountsFromPrefix(RunOps(init, migs, ops), init, migs, faults, k);
  }

  lemma CountsFromPrefix<S>(db: Db<S>, init: S, migs: seq<Migration<S>>, faults: Faults, k: nat)
    requires Ascending(migs) && AtPrefix(db, init, migs, k) && Up(db, migs, faults, 0).ok
    ensures Up(db, migs, faults, 0).count == |Versions(migs) - db.applied|
    ensures AtPrefix(Up(db, migs, faults, 0).db, init, migs, |migs|)
  {
    UpKeepsPrefix(db, init, migs, faults, 0, k);
    EndIsReached(Up(db, migs, faults, 0), init, migs, k);
    CountPending(migs, k);
  }

  lemma EndIsReached<S>(r: Outcome<S>, init: S, migs: seq<Migration<S>>, k: nat)
    requires EndsAtPrefix(r, init, migs, k) && r.ok && k <= |migs|
    ensures r.count == |migs| - k && AtPrefix(r.db, init, migs, |migs|)
  {
    assert k + r.count == |migs|;
  }

  /** With none pending, MigrateUp returns 0 and changes nothing, and only a failing lookup
      makes it fail. */
  lemma UpAgainDoesNothing<S>(db: Db<S>, init: S, migs: seq<Migration<S>>, faults: Faults)
    requires Ascending(migs) && AtPrefix(db, init, migs, |migs|)
    ensures Up(db, migs, faults, 0).db == db && Up(db, migs, faults, 0).count == 0
    ensures Up(db, migs, faults, 0).ok <==> forall j | 0 <= j < |migs| :: !faults(j).AtCheck?
  {
    UpKeepsPrefix(db, init, migs, faults, 0, |migs|);
    UpSucceedsExactly(db, init, migs, faults, 0, |migs|);
  }

  lemma CountPending<S>(migs: seq<Migration<S>>, k: nat)
    requires Ascending(migs) && k <= |migs|
    ensures |Versions(migs) - Versions(migs[..k])| == |migs| - k
  {
    assert migs[..|migs|] == migs;
    CountVersions(migs, |migs|);
    CountVersions(migs, k);
    assert forall i | 0 <= i < k :: migs[..k][i] == migs[i];
    assert Versions(migs[..k]) <= Versions(migs);
    Remaining(Versions(migs), Versions(migs[..k]));
  }

  lemma {:induction false} CountVersions<S>(migs: seq<Migration<S>>, k: nat)
    requires Ascending(migs) && k <= |migs|
    ensures |Versions(migs[..k])| == k
  {
    if k == 0 {
      assert Versions(migs[..0]) == {};
    } else {
      CountVersions(migs, k - 1);
      VersionsSnoc(migs, k - 1);
      PendingIsNotApplied(migs, k - 1, k - 1);
      OneMore(Versions(migs[..k - 1]), migs[k - 1].version);
    }
  }

  /** The database as the runner drives it, one statement after the other; a transaction
      works on its own copy until it commits. */
  class Database<S> {
    var applied: set<int>
    var schema: S

    constructor (schema: S)
      ensures View() == Db({}, schema)
    {
      this.applied := {};
      this.schema := schema;
    }

    function View(): Db<S>
      reads this
    {
      Db(applied, schema)
    }

    method MigrateUp(migs: seq<Migration<S>>, ensureFails: bool, faults: Faults) returns (count: nat, ok: bool)
      modifies this
      ensures Outcome(View(), count, ok) == Apply(old(View()), migs, UpOp(ensureFails, faults))
    {
      count := 0;
      if ensureFails {
        return 0, false;
      }
      ghost var goal := Up(View(), migs, faults, 0);
      for i := 0 to |migs|
        invariant goal == var r := Up(View(), migs, faults, i); r.(count := r.count + count)
      {
        if faults(i).AtCheck? {
          return count, false;
        }
        if migs[i].version in applied {
          continue;
        }
        var done := ApplyOne(migs[i], faults(i));
        if !done {
          return count, false;
        }
        count := count + 1;
      }
      return count, true;
    }

    /** One up migration in a transaction of its own. */
    method ApplyOne(mig: Migration<S>, fault: Fault) returns (done: bool)
      modifies this
      ensures done <==> fault.NoFault? || fault.AtCheck?
      ensures View() == if done then Db(old(applied) + {mig.version}, mig.up(old(schema))) else old(View())
    {
      if fault.AtBegin? {
        return false;
      }
      var tx := View();
      if fault.AtScript? {
        return false;
      }
      tx := tx.(schema := mig.up(tx.schema));
      if fault.AtRecord? {
        return false;
      }
      tx := tx.(applied := tx.applied + {mig.version});
      if fault.AtCommit? {
        return false;
      }
      applied, schema := tx.applied, tx.schema;
      return true;
    }

    method MigrateDown(migs: seq<Migration<S>>, ensureFails: bool, fault: Fault) returns (count: nat, ok: bool)
      modifies this
      ensures Outcome(View(), count, ok) == Apply(old(View()), migs, DownOp(ensureFails, fault))
    {
      if ensureFails || fault.AtCheck? {
        return 0, false;
      }
      var latest := SelectLatest();
      if latest == 0 {
        return 0, true;
      }
      var at := Position(migs, latest, 0);
      if at.None? || migs[at.value].down.None? || fault.AtBegin? {
        return 0, false;
      }
      var tx := View();
      if fault.AtScript? {
        return 0, false;
      }
      tx := tx.(schema := migs[at.value].down.value(tx.schema));
      if fault.AtRecord? {
        return 0, false;
      }
      tx := tx.(applied := tx.applied - {latest});
      if fault.AtCommit? {
        return 0, false;
      }
      applied, schema := tx.applied, tx.schema;
      return 1, true;
    }

    method SelectLatest() returns (latest: int)
      ensures latest == Latest(applied)
    {
      if applied == {} {
        return 0;
      }
      GreatestExists(applied);
      latest :| latest in applied && forall u | u in applied :: u <= latest;
    }
  }
}
