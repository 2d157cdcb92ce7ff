/**
 The forward-only migration runner: files in name order, each sent as its statements
 followed by the insert of its version, a crash possible between any two.
 */
module Migrations {
  import opened Collections
  import opened Sorting

  /** CREATE ... IF NOT EXISTS of one object. */
  datatype Ddl = Ddl(name: string, definition: string)

  datatype File = File(version: string, body: seq<Ddl>)

  datatype Statement = Create(ddl: Ddl) | Record(version: string)

  /** The schema and the rows of _schema_migrations, oldest first. */
  datatype Db = Db(schema: map<string, string>, recorded: seq<string>)

  const EMPTY := Db(map[], [])

  function Step(db: Db, st: Statement): Db {
    match st
    case Create(d) => if d.name in db.schema then db else db.(schema := db.schema[d.name := d.definition])
    case Record(v) => db.(recorded := db.recorded + [v])
  }

  /** The statements that run before the server stops. */
  function Upto<T>(s: seq<T>, budget: nat): (r: seq<T>)
    ensures r <= s && |r| == if budget < |s| then budget else |s|
  {
    if budget < |s| then s[..budget] else s
  }

  function Exec(db: Db, sts: seq<Statement>): Db {
    if sts == [] then db else Step(Exec(db, DropLast(sts)), Last(sts))
  }

  function Creates(body: seq<Ddl>): (sts: seq<Statement>)
    ensures |sts| == |body|
  {
    if body == [] then [] else Creates(DropLast(body)) + [Create(Last(body))]
  }

  /** What the runner sends for one file. */
  function Request(f: File): seq<Statement> {
    Creates(f.body) + [Record(f.version)]
  }

  /** What a run sends that found `applied` in the tracking table. */
  function Script(files: seq<File>, applied: seq<string>): seq<Statement> {
    if files == [] then []
    else Script(DropLast(files), applied) + if Last(files).version in applied then [] else Request(Last(files))
  }

  /** How many files a run skips. */
  function Skips(files: seq<File>, applied: seq<string>): nat {
    if files == [] then 0
    else Skips(DropLast(files), applied) + if Last(files).version in applied then 1 else 0
  }

  /** Everything a first run sends. */
  function All(files: seq<File>): seq<Statement> {
    Script(files, [])
  }

  /** The name of a file in the migrations directory. */
  function FileName(f: File): string {
    f.version + ".sql"
  }

  /** The runner takes the files in the order of their paths, which share their directory. */
  function ByPath(): (File, File) -> bool {
    (a: File, b: File) => StrLess(FileName(a), FileName(b))
  }

  ghost predicate DistinctVersions(files: seq<File>) {
    forall i, j :: 0 <= i < j < |files| ==> files[i].version != files[j].version
  }

  /** One run: whether it could read the tracking table, and how many statements the server lived. */
  datatype Run = Run(readOk: bool, budget: nat)

  function Sent(db: Db, files: seq<File>, run: Run): seq<Statement> {
    Script(files, if run.readOk then db.recorded else [])
  }

  function Ran(db: Db, files: seq<File>, run: Run): Db {
    Exec(db, Upto(Sent(db, files, run), run.budget))
  }

  predicate Completes(db: Db, files: seq<File>, run: Run) {
    |Sent(db, files, run)| <= run.budget
  }

  function History(db: Db, files: seq<File>, runs: seq<Run>): Db {
    if runs == [] then db else Ran(History(db, files, DropLast(runs)), files, Last(runs))
  }

  // ---- the runner ---------------------------------------------------------------------------

  class Cluster {
    var db: Db

    constructor ()
      ensures db == EMPTY
    {
      db := EMPTY;
    }

    /** The statements of one request, in order, as far as the server lives. */
    method Multiquery(request: seq<Statement>, budget: nat) returns (n: nat)
      modifies this
      ensures n == |Upto(request, budget)|
      ensures db == Exec(old(db), Upto(request, budget))
    {
      n := 0;
      while n < |request| && n < budget
        invariant n <= |request| && n <= budget
        invariant db == Exec(old(db), request[..n])
      {
        assert DropLast(request[..n + 1]) == request[..n];
        db := Step(db, request[n]);
        n := n + 1;
      }
      assert request[..n] == Upto(request, budget);
    }

    /**
     One run over a directory listed in any order. A failed read of the tracking table
     reads as empty; the server stops after `budget` statements.
     */
    method Migrate(listing: seq<File>, readOk: bool, budget: nat)
      returns (files: seq<File>, applied: nat, skipped: nat, completed: bool)
      requires DistinctVersions(listing)
      modifies this
      ensures multiset(files) == multiset(listing) && InOrder(files, ByPath())
      ensures forall i, j :: 0 <= i < j < |files| ==> StrLess(files[i].version + ".sql", files[j].version + ".sql")
      ensures db == Ran(old(db), files, Run(readOk, budget))
      ensures completed <==> Completes(old(db), files, Run(readOk, budget))
      ensures completed ==> applied + skipped == |files|
      ensures completed && readOk ==> skipped == Skips(files, old(db.recorded))
    {
      ByPathIsOrder();
      files := SortSlice(listing, ByPath());
      NamesIncrease(listing, files);
      var found := if readOk then db.recorded else [];
      applied, skipped, completed := ApplyFiles(files, found, budget);
    }

    /** The loop: skip what is applied, send the rest. */
    method ApplyFiles(files: seq<File>, found: seq<string>, budget: nat)
      returns (applied: nat, skipped: nat, completed: bool)
      modifies this
      ensures db == Exec(old(db), Upto(Script(files, found), budget))
      ensures completed <==> |Script(files, found)| <= budget
      ensures completed ==> applied + skipped == |files| && skipped == Skips(files, found)
    {
      hide *;
      applied, skipped := 0, 0;
      var left: nat := budget;
      var i := 0;
      Nothing(db, files, found);
      while i < |files|
        invariant 0 <= i <= |files|
        invariant |Script(files[..i], found)| + left == budget
        invariant db == Exec(old(db), Script(files[..i], found))
        invariant applied + skipped == i && skipped == Skips(files[..i], found)
      {
        ScriptStep(files, i, found);
        if files[i].version in found {
          skipped := skipped + 1;
        } else {
          var request := Request(files[i]);
          var n := Multiquery(request, left);
          ExecConcat(old(db), Script(files[..i], found), Upto(request, left));
          if n < |request| {
            CutShort(files, i, found, left);
            return applied, skipped, false;
          }
          UptoAll(request, left);
          applied := applied + 1;
          left := left - n;
        }
        i := i + 1;
      }
      assert files[..i] == files;
      UptoAll(Script(files, found), budget);
      return applied, skipped, true;
    }
  }

  lemma Nothing(db: Db, files: seq<File>, applied: seq<string>)
    ensures Script(files[..0], applied) == [] && Skips(files[..0], applied) == 0
    ensures Exec(db, Script(files[..0], applied)) == db
  {
  }

  lemma {:induction false} ExecConcat(db: Db, a: seq<Statement>, b: seq<Statement>)
    ensures Exec(Exec(db, a), b) == Exec(db, a + b)
  {
    hide Step;
    if b == [] {
      assert a + b == a;
    } else {
      ExecConcat(db, a, DropLast(b));
      assert DropLast(a + b) == a + DropLast(b);
    }
  }

  lemma UptoAll<T>(s: seq<T>, budget: nat)
    ensures |s| <= budget ==> Upto(s, budget) == s
  {
  }

  lemma ScriptStep(files: seq<File>, i: nat, applied: seq<string>)
    requires i < |files|
    ensures Script(files[..i + 1], applied) ==
            if files[i].version in applied then Script(files[..i], applied)
            else Script(files[..i], applied) + Request(files[i])
    ensures Skips(files[..i + 1], applied) == Skips(files[..i], applied) + if files[i].version in applied then 1 else 0
  {
    assert DropLast(files[..i + 1]) == files[..i];
  }

  lemma {:induction false} ScriptPrefix(files: seq<File>, i: nat, applied: seq<string>)
    requires i <= |files|
    ensures Script(files[..i], applied) <= Script(files, applied)
  {
    hide Request;
    if i < |files| {
      ScriptPrefix(DropLast(files), i, applied);
      assert DropLast(files)[..i] == files[..i];
    } else {
      assert files[..i] == files;
    }
  }

  lemma CutShort(files: seq<File>, i: nat, applied: seq<string>, left: nat)
    requires i < |files| && files[i].version !in applied && left < |Request(files[i])|
    ensures var before, script := Script(files[..i], applied), Script(files, applied);
      && |before| + left < |script|
      && before + Upto(Request(files[i]), left) == Upto(script, |before| + left)
  {
    hide *;
    ScriptStep(files, i, applied);
    ScriptPrefix(files, i + 1, applied);
    CutInside(Script(files, applied), Script(files[..i], applied), Request(files[i]), left);
  }

  lemma CutInside<T>(whole: seq<T>, a: seq<T>, b: seq<T>, left: nat)
    requires a + b <= whole && left < |b|
    ensures |a| + left < |whole| && a + Upto(b, left) == Upto(whole, |a| + left)
  {
  }

  // ---- the order of the files -----------------------------------------------------------------

  lemma ByPathIsOrder()
    ensures StrictWeakOrder(ByPath())
  {
    var less := ByPath();
    forall a, b | less(a, b) ensures !less(b, a) {
      StrLessTotal(FileName(a), FileName(b));
    }
    forall a, b, c | !less(a, b) && !less(b, c) ensures !less(a, c) {
      StrLessTotal(FileName(a), FileName(b));
      StrLessTotal(FileName(b), FileName(c));
      StrLessTotal(FileName(a), FileName(c));
      if StrLess(FileName(c), FileName(b)) && StrLess(FileName(b), FileName(a)) {
        StrLessTransitive(FileName(c), FileName(b), FileName(a));
      }
    }
  }

  ghost function Found(files: seq<File>, applied: seq<string>): set<int> {
    set i | 0 <= i < |files| && files[i].version in applied
  }

  /** A run skips exactly the files whose version it found. */
  lemma {:induction false} SkipsMeaning(files: seq<File>, applied: seq<string>)
    ensures Skips(files, applied) == |Found(files, applied)|
  {
    if files == [] {
      assert Found(files, applied) == {};
    } else {
      var front, n := DropLast(files), |files| - 1;
      SkipsMeaning(front, applied);
      assert forall i :: 0 <= i < n ==> front[i] == files[i];
      if files[n].version in applied {
        assert Found(files, applied) == Found(front, applied) + {n};
      } else {
        assert Found(files, applied) == Found(front, applied);
      }
    }
  }

  /** Sorted files come in strictly increasing order of their names. */
  lemma NamesIncrease(listing: seq<File>, files: seq<File>)
    requires DistinctVersions(listing)
    requires multiset(files) == multiset(listing) && InOrder(files, ByPath())
    ensures forall i, j :: 0 <= i < j < |files| ==> StrLess(files[i].version + ".sql", files[j].version + ".sql")
  {
    assert Distinct(listing);
    DistinctCounts(listing);
    DistinctCounts(files);
    forall i, j | 0 <= i < j < |files| ensures StrLess(files[i].version + ".sql", files[j].version + ".sql") {
      var x, y := files[i], files[j];
      assert x in multiset(listing) && y in multiset(listing);
      StrLessTotal(FileName(x), FileName(y));
      assert FileName(x)[..|x.version|] == x.version && FileName(y)[..|y.version|] == y.version;
      assert !ByPath()(y, x);
    }
  }

  /** However the directory is listed, every run takes the files in the same order. */
  lemma OneOrder(listing: seq<File>, files: seq<File>, again: seq<File>)
    requires DistinctVersions(listing)
    requires multiset(files) == multiset(listing) == multiset(again)
    requires InOrder(files, ByPath()) && InOrder(again, ByPath())
    ensures files == again
  {
    forall x, y | x in files && y in files && x != y ensures ByPath()(x, y) || ByPath()(y, x) {
      assert x in multiset(listing) && y in multiset(listing);
      StrLessTotal(FileName(x), FileName(y));
      assert FileName(x)[..|x.version|] == x.version && FileName(y)[..|y.version|] == y.version;
    }
    SortedUnique(files, again, ByPath());
  }

  // ---- a run as its effects on the schema and on the tracking table -----------------------------

  function Schema(m: map<string, string>, sts: seq<Statement>): map<string, string> {
    if sts == [] then m
    else
      var n := Schema(m, DropLast(sts));
      match Last(sts)
      case Create(d) => if d.name in n then n else n[d.name := d.definition]
      case Record(_) => n
  }

  function Records(sts: seq<Statement>): seq<string> {
    if sts == [] then []
    else Records(DropLast(sts)) + match Last(sts) case Record(v) => [v] case Create(_) => []
  }

  function Versions(files: seq<File>): (vs: seq<string>)
    ensures |vs| == |files| && forall i :: 0 <= i < |files| ==> vs[i] == files[i].version
  {
    if files == [] then [] else Versions(DropLast(files)) + [Last(files).version]
  }

  lemma {:induction false} ExecEffects(db: Db, sts: seq<Statement>)
    ensures Exec(db, sts).schema == Schema(db.schema, sts)
    ensures Exec(db, sts).recorded == db.recorded + Records(sts)
  {
    if sts == [] {
    } else {
      ExecEffects(db, DropLast(sts));
    }
  }

  lemma {:induction false} RecordsConcat(a: seq<Statement>, b: seq<Statement>)
    ensures Records(a + b) == Records(a) + Records(b)
  {
    if b == [] {
      assert a + b == a;
    } else {
      RecordsConcat(a, DropLast(b));
      assert DropLast(a + b) == a + DropLast(b);
    }
  }

  lemma {:induction false} CreatesRecordNothing(body: seq<Ddl>, n: nat)
    requires n <= |body|
    ensures Records(Creates(body)[..n]) == []
  {
    if body != [] && n < |body| {
      CreatesRecordNothing(DropLast(body), n);
      assert Creates(body)[..n] == Creates(DropLast(body))[..n];
    } else if body != [] {
      CreatesRecordNothing(DropLast(body), n - 1);
      assert Creates(body)[..n] == Creates(body);
      assert Creates(DropLast(body))[..n - 1] == Creates(DropLast(body));
    }
  }

  lemma RequestRecords(f: File)
    ensures Records(Request(f)) == [f.version]
  {
    CreatesRecordNothing(f.body, |f.body|);
    assert Creates(f.body)[..|f.body|] == Creates(f.body);
    RecordsConcat(Creates(f.body), [Record(f.version)]);
  }

  lemma {:induction false} AllRecorded(files: seq<File>)
    ensures Records(All(files)) == Versions(files)
  {
    if files == [] {
    } else {
      var f := Last(files);
      AllRecorded(DropLast(files));
      RequestRecords(f);
      RecordsConcat(All(DropLast(files)), Request(f));
      hide Request, Records;
    }
  }

  // ---- replay -------------------------------------------------------------------------------------

  /** A created object stays as it was first created. */
  lemma {:induction false} Created(m: map<string, string>, sts: seq<Statement>, i: nat)
    requires i < |sts| && sts[i].Create?
    ensures sts[i].ddl.name in Schema(m, sts)
  {
    if i == |sts| - 1 {
    } else {
      Created(m, DropLast(sts), i);
    }
  }

  lemma SchemaNone(m: map<string, string>)
    ensures Schema(m, []) == m
  {
  }

  lemma SchemaStep(m: map<string, string>, sts: seq<Statement>)
    requires sts != []
    ensures var before := Schema(m, DropLast(sts));
      Schema(m, sts) ==
        if Last(sts).Record? || Last(sts).ddl.name in before then before
        else before[Last(sts).ddl.name := Last(sts).ddl.definition]
  {
  }

  /** Sending again what was already sent up to `p` changes nothing before reaching new statements. */
  lemma {:induction false} Absorb(all: seq<Statement>, p: nat, s: nat, q: nat)
    requires s <= p <= |all| && s <= q <= |all|
    ensures Schema(Schema(map[], all[..p]), all[s..q]) == Schema(map[], all[..if p < q then q else p])
    decreases q
  {
    hide Schema;
    if s == q {
      SchemaNone(Schema(map[], all[..p]));
    } else {
      Absorb(all, p, s, q - 1);
      SchemaStep(Schema(map[], all[..p]), all[s..q]);
      assert DropLast(all[s..q]) == all[s..q - 1];
      if q <= p {
        if all[q - 1].Create? {
          Created(map[], all[..p], q - 1);
        }
      } else {
        SchemaStep(map[], all[..q]);
        assert DropLast(all[..q]) == all[..q - 1];
      }
    }
  }

  ghost predicate SameMembers(a: seq<string>, b: seq<string>) {
    forall v :: v in a <==> v in b
  }

  lemma {:induction false} ScriptByMembers(files: seq<File>, a: seq<string>, b: seq<string>)
    requires SameMembers(a, b)
    ensures Script(files, a) == Script(files, b)
  {
    if files == [] {
    } else {
      ScriptByMembers(DropLast(files), a, b);
    }
  }

  /** The first `p` statements have taken effect, some perhaps more than once. */
  ghost predicate Reached(db: Db, files: seq<File>, p: nat) {
    && p <= |All(files)|
    && db.schema == Schema(map[], All(files)[..p])
    && SameMembers(db.recorded, Records(All(files)[..p]))
  }

  lemma RecordsOfPrefix(files: seq<File>, p: nat, v: string)
    requires p <= |All(files)| && v in Records(All(files)[..p])
    ensures v in Versions(files)
  {
    hide All, Records, Versions;
    AllRecorded(files);
    assert All(files) == All(files)[..p] + All(files)[p..];
    RecordsConcat(All(files)[..p], All(files)[p..]);
  }

  lemma AllSplit(files: seq<File>)
    requires files != []
    ensures All(files) == All(DropLast(files)) + Request(Last(files))
  {
  }

  /** A crash inside the last file's request: the run sends that request again. */
  lemma MidRequest(files: seq<File>, p: nat)
    requires DistinctVersions(files) && files != []
    requires var s := |All(DropLast(files))|; s <= p < |All(files)|
    ensures var s := |All(DropLast(files))|;
      Script(files, Records(All(files)[..p])) == All(files)[s..] && Records(All(files)[s..p]) == []
  {
    hide *;
    var front, f := DropLast(files), Last(files);
    AllSplit(files);
    RequestParts(f);
    var before := All(front);
    AllRecorded(front);
    var n := p - |before|;
    CreatesRecordNothing(f.body, n);
    Inside(All(files), before, Creates(f.body), [Record(f.version)], n);
    RecordsConcat(before, Creates(f.body)[..n]);
    OnlyLast(files);
    assert Versions(front) + [] == Versions(front);
  }

  lemma RequestParts(f: File)
    ensures Request(f) == Creates(f.body) + [Record(f.version)]
  {
  }

  lemma Inside<T>(whole: seq<T>, a: seq<T>, b: seq<T>, c: seq<T>, n: nat)
    requires whole == a + (b + c) && n <= |b|
    ensures whole[..|a| + n] == a + b[..n] && whole[|a|..|a| + n] == b[..n] && whole[|a|..] == b + c
  {
  }

  lemma OnlyLast(files: seq<File>)
    requires DistinctVersions(files) && files != []
    ensures Script(files, Versions(DropLast(files))) == Request(Last(files))
  {
    var front := DropLast(files);
    AllSkipped(front, Versions(front));
    forall i | 0 <= i < |front| ensures Versions(front)[i] != Last(files).version {
      assert front[i] == files[i];
    }
    assert [] + Request(Last(files)) == Request(Last(files));
  }

  /** A run that can read the tracking table starts at the first file whose version is missing. */
  lemma {:induction false} ScriptAfter(files: seq<File>, p: nat) returns (s: nat)
    requires DistinctVersions(files) && p <= |All(files)|
    ensures s <= p && Script(files, Records(All(files)[..p])) == All(files)[s..]
    ensures Records(All(files)[s..p]) == []
  {
    if p == |All(files)| {
      s := p;
      AllRecorded(files);
      assert All(files)[..p] == All(files);
      AllSkipped(files, Versions(files));
    } else if p < |All(DropLast(files))| {
      var front := DropLast(files);
      s := ScriptAfter(front, p);
      NextFile(files, p, s);
    } else {
      s := |All(DropLast(files))|;
      MidRequest(files, p);
    }
  }

  lemma NextFile(files: seq<File>, p: nat, s: nat)
    requires DistinctVersions(files) && files != []
    requires var before := All(DropLast(files));
      && s <= p <= |before|
      && Script(DropLast(files), Records(before[..p])) == before[s..]
      && Records(before[s..p]) == []
    ensures p <= |All(files)| && Script(files, Records(All(files)[..p])) == All(files)[s..]
    ensures Records(All(files)[s..p]) == []
  {
    var front, f := DropLast(files), Last(files);
    var before := All(front);
    AllSplit(files);
    LastIsNew(files, p);
    Slices(All(files), before, Request(f), s, p);
    hide All, Records, Request;
  }

  lemma LastIsNew(files: seq<File>, p: nat)
    requires DistinctVersions(files) && files != [] && p <= |All(DropLast(files))|
    ensures Last(files).version !in Records(All(DropLast(files))[..p])
  {
    var front, v := DropLast(files), Last(files).version;
    if v in Records(All(front)[..p]) {
      RecordsOfPrefix(front, p, v);
    }
  }

  lemma Slices<T>(whole: seq<T>, a: seq<T>, b: seq<T>, s: nat, p: nat)
    requires whole == a + b && s <= p <= |a|
    ensures whole[..p] == a[..p] && whole[s..p] == a[s..p] && whole[s..] == a[s..] + b
  {
  }

  lemma {:induction false} AllSkipped(files: seq<File>, applied: seq<string>)
    requires forall v :: v in Versions(files) ==> v in applied
    ensures Script(files, applied) == []
  {
    if files == [] {
    } else {
      assert Versions(files) == Versions(DropLast(files)) + [Last(files).version];
      AllSkipped(DropLast(files), applied);
    }
  }

  lemma SplitPrefix(all: seq<Statement>, mid: nat, hi: nat)
    requires mid <= hi <= |all|
    ensures Records(all[..hi]) == Records(all[..mid]) + Records(all[mid..hi])
  {
    RecordsConcat(all[..mid], all[mid..hi]);
    assert all[..hi] == all[..mid] + all[mid..hi];
  }

  lemma SplitSlice(all: seq<Statement>, lo: nat, mid: nat, hi: nat)
    requires lo <= mid <= hi <= |all|
    ensures Records(all[lo..hi]) == Records(all[lo..mid]) + Records(all[mid..hi])
  {
    RecordsConcat(all[lo..mid], all[mid..hi]);
    assert all[lo..hi] == all[lo..mid] + all[mid..hi];
  }

  lemma Members(all: seq<Statement>, p: nat, s: nat, e: nat)
    requires s <= p <= |all| && s <= e <= |all|
    ensures SameMembers(Records(all[..p]) + Records(all[s..e]), Records(all[..if p < e then e else p]))
  {
    hide Records;
    SplitPrefix(all, s, p);
    if p < e {
      SplitPrefix(all, p, e);
      SplitSlice(all, s, p, e);
    } else {
      SplitSlice(all, s, e, p);
    }
  }

  /** Where a run starts and stops in the clean order. */
  lemma RunIsWindow(db: Db, files: seq<File>, run: Run, p: nat) returns (s: nat, e: nat)
    requires DistinctVersions(files) && Reached(db, files, p)
    ensures s <= p && s <= e <= |All(files)|
    ensures Upto(Sent(db, files, run), run.budget) == All(files)[s..e]
    ensures Completes(db, files, run) <==> e == |All(files)|
    ensures run.readOk ==> Records(All(files)[s..p]) == []
    ensures !run.readOk ==> s == 0
  {
    if run.readOk {
      ScriptByMembers(files, db.recorded, Records(All(files)[..p]));
      s := ScriptAfter(files, p);
    } else {
      s := 0;
    }
    hide Records, Script, Schema, DistinctVersions, Reached, All, Upto;
    assert All(files)[0..] == All(files);
    e := WindowEnd(All(files), s, run.budget);
  }

  lemma WindowEnd<T>(all: seq<T>, s: nat, budget: nat) returns (e: nat)
    requires s <= |all|
    ensures s <= e <= |all| && Upto(all[s..], budget) == all[s..e]
    ensures |all[s..]| <= budget <==> e == |all|
  {
    e := s + |Upto(all[s..], budget)|;
  }

  /** Every run, crashed or not, reading or not, moves the reached point forward or leaves it. */
  lemma RunAdvances(db: Db, files: seq<File>, run: Run, p: nat) returns (q: nat)
    requires DistinctVersions(files) && Reached(db, files, p)
    ensures p <= q && Reached(Ran(db, files, run), files, q)
    ensures Completes(db, files, run) ==> q == |All(files)|
    ensures run.readOk && db.recorded == Records(All(files)[..p]) ==>
      Ran(db, files, run).recorded == Records(All(files)[..q])
  {
    var all := All(files);
    var s, e := RunIsWindow(db, files, run, p);
    q := if p < e then e else p;
    ExecEffects(db, all[s..e]);
    Absorb(all, p, s, e);
    Members(all, p, s, e);
    if run.readOk {
      RecordedOnce(all, p, s, e);
    }
  }

  lemma RecordedOnce(all: seq<Statement>, p: nat, s: nat, e: nat)
    requires s <= p <= |all| && s <= e <= |all| && Records(all[s..p]) == []
    ensures Records(all[..p]) + Records(all[s..e]) == Records(all[..if p < e then e else p])
  {
    hide Records;
    SplitPrefix(all, s, p);
    if p < e {
      SplitPrefix(all, s, e);
      assert Records(all[..p]) == Records(all[..s]);
    } else {
      SplitSlice(all, s, e, p);
      assert Records(all[s..e]) == [];
    }
  }

  ghost predicate AllRead(runs: seq<Run>) {
    forall i :: 0 <= i < |runs| ==> runs[i].readOk
  }

  lemma {:induction false} EveryHistory(files: seq<File>, runs: seq<Run>) returns (p: nat)
    requires DistinctVersions(files)
    ensures Reached(History(EMPTY, files, runs), files, p)
    ensures AllRead(runs) ==> History(EMPTY, files, runs).recorded == Records(All(files)[..p])
  {
    if runs == [] {
      p := 0;
    } else {
      var q := EveryHistory(files, DropLast(runs));
      p := RunAdvances(History(EMPTY, files, DropLast(runs)), files, Last(runs), q);
      if AllRead(runs) {
        assert AllRead(DropLast(runs)) && Last(runs).readOk;
      }
    }
  }

  /** What one uninterrupted first run leaves. */
  function Clean(files: seq<File>): Db {
    Exec(EMPTY, All(files))
  }

  /**
   Any number of runs, each cut off anywhere and each possibly blind to the tracking
   table, followed by one that completes: the schema is a clean run's and every version
   is recorded. If every run could read the table, the whole state is a clean run's, each
   version recorded once and in file order.
   */
  lemma Replay(files: seq<File>, runs: seq<Run>, last: Run)
    requires DistinctVersions(files)
    requires Completes(History(EMPTY, files, runs), files, last)
    ensures var db := History(EMPTY, files, runs + [last]);
      && db.schema == Clean(files).schema
      && SameMembers(db.recorded, Versions(files))
      && (AllRead(runs) && last.readOk ==> db == Clean(files) && db.recorded == Versions(files))
  {
    var before := History(EMPTY, files, runs);
    var p := EveryHistory(files, runs);
    var q := RunAdvances(before, files, last, p);
    assert DropLast(runs + [last]) == runs;
    AllRecorded(files);
    ExecEffects(EMPTY, All(files));
    assert All(files)[..q] == All(files);
    assert [] + Versions(files) == Versions(files);
  }

  /** After that, a run that can read the table sends nothing, and any run leaves the schema alone. */
  lemma LaterRunsChangeNothing(files: seq<File>, db: Db, run: Run)
    requires DistinctVersions(files) && Reached(db, files, |All(files)|)
    ensures run.readOk ==> Sent(db, files, run) == [] && Ran(db, files, run) == db
    ensures Ran(db, files, run).schema == db.schema
  {
    var q := RunAdvances(db, files, run, |All(files)|);
    AllRecorded(files);
    assert All(files)[..|All(files)|] == All(files);
    if run.readOk {
      AllSkipped(files, db.recorded);
    }
  }

  /**
   A run whose read of the table fails is not harmless: completing, it records every
   version anew, so each is recorded once if and only if none was before.
   */
  lemma BlindRunDuplicates(files: seq<File>, db: Db, run: Run, p: nat)
    requires DistinctVersions(files) && Reached(db, files, p) && Completes(db, files, run)
    requires !run.readOk
    ensures Ran(db, files, run).recorded == db.recorded + Versions(files)
    ensures Distinct(Ran(db, files, run).recorded) <==> db.recorded == []
  {
    var s, e := RunIsWindow(db, files, run, p);
    assert All(files)[s..e] == All(files);
    ExecEffects(db, All(files));
    AllRecorded(files);
    if db.recorded != [] {
      assert db.recorded[0] in db.recorded;
      RecordsOfPrefix(files, p, db.recorded[0]);
    }
    Appended(db.recorded, Versions(files));
  }

  lemma Appended(recorded: seq<string>, versions: seq<string>)
    requires Distinct(versions) && (recorded != [] ==> recorded[0] in versions)
    ensures Distinct(recorded + versions) <==> recorded == []
  {
    if recorded != [] {
      var j :| 0 <= j < |versions| && versions[j] == recorded[0];
      assert (recorded + versions)[|recorded| + j] == (recorded + versions)[0];
    } else {
      assert recorded + versions == versions;
    }
  }
}
