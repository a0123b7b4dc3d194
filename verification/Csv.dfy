/** CsvBackend over a file system: staging files, the move to production, and what sessions can do to each other. */
module Csv {
  import opened Wrappers

  datatype Path = Path(dir: string, name: string)

  datatype File = File(content: string, mtime: int)

  type Files = map<Path, File>

  datatype Move = Rename | CopyAndDelete  // CopyAndDelete when the rename raises OSError

  /** f"{table}.tollkeeper-{hex}.csv" */
  function StagingName(table: string, hex: string): string {
    table + ".tollkeeper-" + hex + ".csv"
  }

  /** The glob *.tollkeeper-*.csv */
  predicate IsStagingName(name: string) {
    exists i :: 0 <= i <= |name| - 16 && MarkedAt(name, i)
  }

  predicate MarkedAt(name: string, i: nat)
    requires i <= |name| - 16
  {
    name[i..i + 12] == ".tollkeeper-" && name[|name| - 4..] == ".csv"
  }

  class CsvBackend {
    const stagingDir: string
    const publishDir: string
    var files: Files

    constructor (stagingDir: string, publishDir: string, files: Files)
      ensures this.stagingDir == stagingDir && this.publishDir == publishDir && this.files == files
    {
      this.stagingDir, this.publishDir, this.files := stagingDir, publishDir, files;
    }

    /** The staged file is not created: that is left to the write function. */
    method CreateVersion(table: string, hex: string) returns (ref: Path)
      ensures ref == Path(stagingDir, StagingName(table, hex)) && IsStagingName(ref.name)
      ensures forall t, h :: |hex| == |h| == 8 && h != hex ==> ref.name != StagingName(t, h)
    {
      ref := Path(stagingDir, StagingName(table, hex));
      StagingNameMatches(table, hex);
      forall t, h | |hex| == |h| == 8 && h != hex ensures ref.name != StagingName(t, h) {
        RefsDistinct(table, hex, t, h);
      }
    }

    /**
      Raises, changing nothing, when there is no staged file, or when the copy would go onto the
      file itself; otherwise both ways of moving end alike.
    */
    method PublishVersion(table: string, ref: Path, move: Move) returns (ok: bool)
      modifies this`files
      ensures var dst := Path(publishDir, table + ".csv");
              && (ok <==> ref in old(files) && (move == Rename || ref != dst))
              && files == if ref == dst then old(files) else AfterPublish(old(files), dst, ref)
    {
      var dst := Path(publishDir, table + ".csv");
      if ref in files && move == Rename {
        if ref != dst {
          files := files[dst := files[ref]] - {ref};
        }
        return true;
      }
      if ref !in files || ref == dst {
        return false;
      }
      files := files[dst := files[ref]];
      files := files - {ref};
      return true;
    }

    method RollbackVersion(ref: Path)
      modifies this`files
      ensures files == old(files) - {ref}
    {
      if ref in files {
        files := files - {ref};
      } else {
        assert files - {ref} == files;
      }
    }

    /** Removes the staging files older than maxAge, lists each of them once, and touches no other file. */
    method CleanupStaging(now: int, maxAge: int) returns (removed: seq<Path>)
      modifies this`files
      ensures files == AfterCleanup(old(files), stagingDir, now - maxAge)
      ensures forall p :: p in removed <==> p in StalePaths(old(files), stagingDir, now - maxAge)
      ensures |removed| == |StalePaths(old(files), stagingDir, now - maxAge)|
      ensures forall p :: p in removed <==>
                p in old(files) && p.dir == stagingDir && IsStagingName(p.name) && old(files)[p].mtime < now - maxAge
      ensures forall p :: p in files <==> p in old(files) && p !in removed
      ensures forall p :: p in files ==> files[p] == old(files)[p]
    {
      var cutoff := now - maxAge;
      var candidates := set p | p in files && p.dir == stagingDir && IsStagingName(p.name);
      removed := [];
      var left := candidates;
      ghost var gone: set<Path> := {};
      while left != {}
        invariant left <= candidates
        invariant gone == set p | p in candidates - left && old(files)[p].mtime < cutoff
        invariant files == old(files) - gone
        invariant (forall p :: p in removed <==> p in gone) && |removed| == |gone|
        decreases left
      {
        var p :| p in left;
        assert p !in gone;
        left := left - {p};
        if files[p].mtime < cutoff {
          files := files - {p};
          removed := removed + [p];
          gone := gone + {p};
        }
      }
      assert gone == StalePaths(old(files), stagingDir, cutoff);
    }
  }

  // ---------- Effects ----------

  function AfterPublish(files: Files, production: Path, ref: Path): Files {
    if ref in files then files[production := files[ref]] - {ref} else files
  }

  predicate Stale(files: Files, stagingDir: string, cutoff: int, p: Path)
    requires p in files
  {
    p.dir == stagingDir && IsStagingName(p.name) && files[p].mtime < cutoff
  }

  function StalePaths(files: Files, stagingDir: string, cutoff: int): set<Path> {
    set p | p in files && Stale(files, stagingDir, cutoff, p)
  }

  function AfterCleanup(files: Files, stagingDir: string, cutoff: int): Files {
    map p | p in files && !Stale(files, stagingDir, cutoff, p) :: files[p]
  }

  /** Fresh eight-digit suffixes give different staging files, whatever the tables are called. */
  lemma RefsDistinct(a: string, x: string, b: string, y: string)
    requires |x| == |y| == 8 && x != y
    ensures StagingName(a, x) != StagingName(b, y)
  {
    var m, n := StagingName(a, x), StagingName(b, y);
    assert m[|m| - 12..|m| - 4] == x && n[|n| - 12..|n| - 4] == y;
  }

  /** Every staging file is one that cleanup_staging looks at. */
  lemma StagingNameMatches(table: string, hex: string)
    ensures IsStagingName(StagingName(table, hex))
  {
    var m := StagingName(table, hex);
    assert MarkedAt(m, |table|);
  }

  /** The pattern takes exactly the names of staging files, whatever stands for the table and the suffix. */
  lemma PatternMeans(name: string)
    ensures IsStagingName(name) <==> exists table, hex :: name == StagingName(table, hex)
  {
    if IsStagingName(name) {
      var i :| 0 <= i <= |name| - 16 && MarkedAt(name, i);
      assert name == StagingName(name[..i], name[i + 12..|name| - 4]);
    }
    if table, hex :| name == StagingName(table, hex) { StagingNameMatches(table, hex); }
  }

  // ---------- Interleaved sessions ----------

  datatype Session = Session(table: string, ref: Path)

  datatype World = World(stagingDir: string, publishDir: string, sessions: seq<Session>)

  /** A table name that is one component of a path. */
  predicate Plain(table: string) {
    '/' !in table
  }

  /** Disjoint directories, plain table names, and a staging file of its own for every session. */
  ghost predicate Separate(w: World) {
    && w.stagingDir != w.publishDir
    && (forall s :: s in w.sessions ==> Plain(s.table))
    && (forall s :: s in w.sessions ==> s.ref.dir == w.stagingDir)
    && forall i, j :: 0 <= i < j < |w.sessions| ==> w.sessions[i].ref != w.sessions[j].ref
  }

  datatype Act =
    | Stage(s: nat, file: File)  // the write function of session s writes its ref
    | Publish(s: nat)
    | Rollback(s: nat)
    | Cleanup(cutoff: int)

  predicate Valid(w: World, a: Act) {
    a.Cleanup? || a.s < |w.sessions|
  }

  function Production(w: World, table: string): Path {
    Path(w.publishDir, table + ".csv")
  }

  function Do(w: World, files: Files, a: Act): Files
    requires Valid(w, a)
  {
    match a
    case Stage(s, file) => files[w.sessions[s].ref := file]
    case Publish(s) => AfterPublish(files, Production(w, w.sessions[s].table), w.sessions[s].ref)
    case Rollback(s) => files - {w.sessions[s].ref}
    case Cleanup(cutoff) => AfterCleanup(files, w.stagingDir, cutoff)
  }

  function DoAll(w: World, files: Files, acts: seq<Act>): Files
    requires forall a :: a in acts ==> Valid(w, a)
    decreases |acts|
  {
    if acts == [] then files else DoAll(w, Do(w, files, acts[0]), acts[1..])
  }

  function At(files: Files, p: Path): Option<File> {
    if p in files then Some(files[p]) else None
  }

  lemma TablePathsDiffer(dir: string, a: string, b: string)
    ensures Path(dir, a + ".csv") == Path(dir, b + ".csv") <==> a == b
  {
    assert (a + ".csv")[..|a + ".csv"| - 4] == a && (b + ".csv")[..|b + ".csv"| - 4] == b;
  }

  /**
    One act changes the production file of a table only if it publishes a session for that table
    whose staged file exists, and then to exactly that file.
  */
  lemma OnlyPublishChangesProduction(w: World, files: Files, a: Act, table: string)
    requires Separate(w) && Valid(w, a) && Plain(table)
    ensures var p := Production(w, table);
            At(Do(w, files, a), p) ==
            if a.Publish? && w.sessions[a.s].table == table && w.sessions[a.s].ref in files
            then At(files, w.sessions[a.s].ref) else At(files, p)
  {
    if !a.Cleanup? {
      assert w.sessions[a.s] in w.sessions;
      TablePathsDiffer(w.publishDir, w.sessions[a.s].table, table);
    }
  }

  /** No other session touches a staged file, and short of a write for it, it can only disappear. */
  lemma StagedOnlyByItsSession(w: World, files: Files, a: Act, s: nat)
    requires Separate(w) && Valid(w, a) && s < |w.sessions|
    ensures var ref := w.sessions[s].ref;
            var before, after := At(files, ref), At(Do(w, files, a), ref);
            && (!(a.Stage? && a.s == s) ==> after == before || after == None)
            && (!a.Cleanup? && a.s != s ==> after == before)
  {
  }

  lemma {:induction false} StagedAsAudited(w: World, files: Files, acts: seq<Act>, s: nat)
    requires Separate(w) && s < |w.sessions|
    requires forall a :: a in acts ==> Valid(w, a) && !(a.Stage? && a.s == s)
    ensures var ref := w.sessions[s].ref;
            At(DoAll(w, files, acts), ref) == At(files, ref) || At(DoAll(w, files, acts), ref) == None
    decreases |acts|
  {
    if acts != [] {
      assert acts[0] in acts && forall a :: a in acts[1..] ==> a in acts;
      StagedOnlyByItsSession(w, files, acts[0], s);
      StagedAsAudited(w, Do(w, files, acts[0]), acts[1..], s);
    }
  }

  /** What session s has staged is written before none of the clean-ups' cutoffs, and s itself does nothing. */
  predicate LeavesStaged(w: World, acts: seq<Act>, s: nat, mtime: int)
    requires s < |w.sessions|
  {
    forall a :: a in acts ==> Valid(w, a) && if a.Cleanup? then a.cutoff <= mtime else a.s != s
  }

  /** A clean-up never takes a staged file written at or after its cutoff, and other sessions never take it at all. */
  lemma {:induction false} StagedSurvives(w: World, files: Files, acts: seq<Act>, s: nat)
    requires Separate(w) && s < |w.sessions| && w.sessions[s].ref in files
    requires LeavesStaged(w, acts, s, files[w.sessions[s].ref].mtime)
    ensures At(DoAll(w, files, acts), w.sessions[s].ref) == Some(files[w.sessions[s].ref])
    decreases |acts|
  {
    if acts != [] {
      var a, ref := acts[0], w.sessions[s].ref;
      assert a in acts && forall b :: b in acts[1..] ==> b in acts;
      if a.Cleanup? {
        assert !(files[ref].mtime < a.cutoff);
      } else {
        StagedOnlyByItsSession(w, files, a, s);
      }
      StagedSurvives(w, Do(w, files, a), acts[1..], s);
    }
  }

  /**
    Isolation: whatever other sessions and clean-ups do between an audit and a publish, if the
    session writes nothing more, then a publish that does not raise puts into production exactly
    the file the audit saw, and one that raises leaves production as it was.
  */
  lemma PublishedWasAudited(w: World, audited: Files, acts: seq<Act>, s: nat)
    requires Separate(w) && s < |w.sessions|
    requires forall a :: a in acts ==> Valid(w, a) && !(a.Stage? && a.s == s)
    ensures var ref, p := w.sessions[s].ref, Production(w, w.sessions[s].table);
            var before := DoAll(w, audited, acts);
            var after := Do(w, before, Publish(s));
            && (ref in before ==> ref in audited && At(after, p) == At(audited, ref) && ref !in after)
            && (ref !in before ==> after == before)
  {
    assert w.sessions[s] in w.sessions;
    StagedAsAudited(w, audited, acts, s);
    OnlyPublishChangesProduction(w, DoAll(w, audited, acts), Publish(s), w.sessions[s].table);
  }

  /** A version that was rolled back and not staged again is gone, and publishing it changes nothing. */
  lemma DiscardedIsNotPublished(w: World, files: Files, acts: seq<Act>, s: nat)
    requires Separate(w) && s < |w.sessions|
    requires forall a :: a in acts ==> Valid(w, a) && !(a.Stage? && a.s == s)
    ensures var after := DoAll(w, Do(w, files, Rollback(s)), acts);
            w.sessions[s].ref !in after && Do(w, after, Publish(s)) == after
    ensures forall p :: p != w.sessions[s].ref ==> At(Do(w, files, Rollback(s)), p) == At(files, p)
  {
    StagedAsAudited(w, Do(w, files, Rollback(s)), acts, s);
  }

  /** Production for a table is as it was until some session for that table publishes. */
  lemma {:induction false} ProductionKept(w: World, files: Files, acts: seq<Act>, table: string)
    requires Separate(w) && Plain(table)
    requires forall a :: a in acts ==> Valid(w, a) && !(a.Publish? && w.sessions[a.s].table == table)
    ensures At(DoAll(w, files, acts), Production(w, table)) == At(files, Production(w, table))
    decreases |acts|
  {
    if acts != [] {
      assert acts[0] in acts && forall a :: a in acts[1..] ==> a in acts;
      OnlyPublishChangesProduction(w, files, acts[0], table);
      ProductionKept(w, Do(w, files, acts[0]), acts[1..], table);
    }
  }
}
