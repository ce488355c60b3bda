/** Rotation of the audit log.  The disk is the current file, if it exists, and the rotated files
    by number; every line of a file is an entry that parses. */
module AuditLog {
  import opened Basics

  datatype Entry = Entry(severity: nat, text: string)

  datatype Config = Config(enabled: bool, maxEntries: nat, keepRotations: nat, minSeverity: nat)
  {
    predicate Accepts(e: Entry) { enabled && e.severity >= minSeverity }

    /** A limit of zero rotates as soon as the file exists, so it behaves as one. */
    function Limit(): (n: nat)
      ensures n >= 1
    {
      if maxEntries == 0 then 1 else maxEntries
    }
  }

  // ---------------------------------------------------------------- the reference

  /** The rotated files, newest first, and the current one. */
  datatype Files = Files(rotated: seq<seq<Entry>>, current: Option<seq<Entry>>)

  /** A full current file becomes the newest rotated one, and at most `keepRotations` are kept. */
  function Rotated(cfg: Config, f: Files): (f': Files) {
    if f.current.None? || |f.current.value| < cfg.maxEntries then f
    else Files(First([f.current.value] + f.rotated, cfg.keepRotations), None)
  }

  function Appended(f: Files, e: Entry): (f': Files) {
    f.(current := Some((if f.current.Some? then f.current.value else []) + [e]))
  }

  function Logged(cfg: Config, f: Files, e: Entry): (f': Files) {
    if cfg.Accepts(e) then Appended(Rotated(cfg, f), e) else f
  }

  const NO_FILES: Files := Files([], None)

  /** The files after logging `entries`, from an empty directory. */
  function Run(cfg: Config, entries: seq<Entry>): (f: Files)
    decreases |entries|, 0
  {
    if entries == [] then NO_FILES else After(cfg, entries[..|entries| - 1], entries[|entries| - 1])
  }

  /** One entry after others. */
  function After(cfg: Config, before: seq<Entry>, e: Entry): (f: Files)
    decreases |before|, 1
  {
    Logged(cfg, Run(cfg, before), e)
  }

  /** The entries that are not filtered out. */
  function Accepted(cfg: Config, entries: seq<Entry>): (r: seq<Entry>) {
    if entries == [] then []
    else
      var e := entries[|entries| - 1];
      Accepted(cfg, entries[..|entries| - 1]) + if cfg.Accepts(e) then [e] else []
  }

  /** Everything on disk, oldest first. */
  function Contents(f: Files): (es: seq<Entry>) {
    Oldest(f.rotated) + if f.current.Some? then f.current.value else []
  }

  function Oldest(rotated: seq<seq<Entry>>): (es: seq<Entry>) {
    if rotated == [] then [] else Oldest(rotated[1..]) + rotated[0]
  }

  // ---------------------------------------------------------------- invariant

  /** Every rotated file is full, there are no more than are kept, and the current one is neither
      empty nor over-full. */
  predicate Shape(cfg: Config, f: Files) {
    && |f.rotated| <= cfg.keepRotations
    && (forall i :: 0 <= i < |f.rotated| ==> |f.rotated[i]| == cfg.Limit())
    && (f.current.None? ==> f.rotated == [])
    && (f.current.Some? ==> 0 < |f.current.value| <= cfg.Limit())
  }

  /** The disk holds the end of what was accepted, and all of it until the last slot is in use. */
  predicate Content(cfg: Config, f: Files, accepted: seq<Entry>) {
    && (f.current.None? <==> accepted == [])
    && IsSuffix(Contents(f), accepted)
    && (|f.rotated| < cfg.keepRotations ==> Contents(f) == accepted)
  }

  predicate Inv(cfg: Config, f: Files, accepted: seq<Entry>) { Shape(cfg, f) && Content(cfg, f, accepted) }

  lemma {:induction false} OldestLength(rotated: seq<seq<Entry>>, n: nat)
    requires forall i :: 0 <= i < |rotated| ==> |rotated[i]| == n
    ensures |Oldest(rotated)| == n * |rotated|
  {
    if rotated != [] {
      OldestLength(rotated[1..], n);
      assert n * |rotated| == n * (|rotated| - 1) + n;
    }
  }

  lemma SuffixConcat<T>(suffix: seq<T>, xs: seq<T>, ys: seq<T>)
    requires IsSuffix(suffix, xs)
    ensures IsSuffix(suffix + ys, xs + ys)
  {
  }

  lemma SuffixOfSuffix<T>(zs: seq<T>, ys: seq<T>, xs: seq<T>)
    requires IsSuffix(zs, ys) && IsSuffix(ys, xs)
    ensures IsSuffix(zs, xs)
  {
  }

  /** Dropping the oldest files drops the oldest entries. */
  lemma {:induction false} OldestOfPrefix(rotated: seq<seq<Entry>>, n: nat)
    requires n <= |rotated|
    ensures IsSuffix(Oldest(rotated[..n]), Oldest(rotated))
  {
    if n > 0 {
      OldestOfPrefix(rotated[1..], n - 1);
      assert rotated[..n][1..] == rotated[1..][..n - 1];
      SuffixConcat(Oldest(rotated[1..][..n - 1]), Oldest(rotated[1..]), rotated[0]);
    }
  }

  /** Rotation keeps the end of the contents, and all of them while there is a free slot. */
  lemma RotationKeepsSuffix(cfg: Config, f: Files)
    requires f.current.Some? && |f.current.value| >= cfg.maxEntries
    ensures IsSuffix(Contents(Rotated(cfg, f)), Contents(f))
    ensures |f.rotated| < cfg.keepRotations ==> Contents(Rotated(cfg, f)) == Contents(f)
  {
    var all := [f.current.value] + f.rotated;
    assert all[1..] == f.rotated && all[0] == f.current.value;
    assert Oldest(all) == Contents(f);
    var kept := First(all, cfg.keepRotations);
    assert kept == all[..|kept|];
    OldestOfPrefix(all, |kept|);
    assert Contents(Rotated(cfg, f)) == Oldest(kept);
  }

  lemma AppendAddsLast(f: Files, e: Entry)
    ensures Contents(Appended(f, e)) == Contents(f) + [e]
  {
  }

  lemma LoggedKeepsShape(cfg: Config, f: Files, e: Entry)
    requires Shape(cfg, f) && cfg.Accepts(e)
    ensures Shape(cfg, Logged(cfg, f, e))
  {
  }

  lemma LoggedKeepsContent(cfg: Config, f: Files, accepted: seq<Entry>, e: Entry)
    requires Content(cfg, f, accepted) && cfg.Accepts(e)
    ensures Content(cfg, Logged(cfg, f, e), accepted + [e])
  {
    var r := Rotated(cfg, f);
    if f.current.Some? && |f.current.value| >= cfg.maxEntries {
      RotationKeepsSuffix(cfg, f);
      SuffixOfSuffix(Contents(r), Contents(f), accepted);
    }
    AppendAddsLast(r, e);
    SuffixConcat(Contents(r), accepted, [e]);
  }

  lemma {:induction false} RunKeepsInv(cfg: Config, entries: seq<Entry>)
    ensures Inv(cfg, Run(cfg, entries), Accepted(cfg, entries))
  {
    if entries != [] {
      var k := |entries| - 1;
      RunKeepsInv(cfg, entries[..k]);
      if cfg.Accepts(entries[k]) {
        LoggedKeepsShape(cfg, Run(cfg, entries[..k]), entries[k]);
        LoggedKeepsContent(cfg, Run(cfg, entries[..k]), Accepted(cfg, entries[..k]), entries[k]);
      }
    }
  }

  // ---------------------------------------------------------------- main results

  /** After any run of log calls there are at most `keepRotations` rotated files, each holds exactly
      max(1, `maxEntries`) entries, and the files from oldest to newest with the current one are the
      end of everything accepted; nothing is lost before the last rotation slot is in use. */
  lemma LogIsASuffix(cfg: Config, entries: seq<Entry>)
    ensures var f := Run(cfg, entries);
            var accepted := Accepted(cfg, entries);
            && |f.rotated| <= cfg.keepRotations
            && (forall i :: 0 <= i < |f.rotated| ==> |f.rotated[i]| == cfg.Limit())
            && IsSuffix(Contents(f), accepted)
            && (|f.rotated| < cfg.keepRotations ==> Contents(f) == accepted)
  {
    RunKeepsInv(cfg, entries);
  }

  /** How much is kept: the current file and every rotation slot once they have been needed; so the
      last `keepRotations * limit` accepted entries are always there. */
  lemma RecentEntriesAreKept(cfg: Config, entries: seq<Entry>)
    ensures var f := Run(cfg, entries);
            var accepted := Accepted(cfg, entries);
            && |Contents(f)| <= cfg.keepRotations * cfg.Limit() + cfg.Limit()
            && (accepted != [] ==>
                  |Contents(f)| > cfg.keepRotations * cfg.Limit() || Contents(f) == accepted)
  {
    RunKeepsInv(cfg, entries);
    SizeOfShape(cfg, Run(cfg, entries));
  }

  lemma SizeOfShape(cfg: Config, f: Files)
    requires Shape(cfg, f)
    ensures |Contents(f)| <= cfg.keepRotations * cfg.Limit() + cfg.Limit()
    ensures f.current.Some? && |f.rotated| == cfg.keepRotations ==> |Contents(f)| > cfg.keepRotations * cfg.Limit()
  {
    OldestLength(f.rotated, cfg.Limit());
    MulMonotone(|f.rotated|, cfg.keepRotations, cfg.Limit());
  }

  lemma FewEnough(cfg: Config, entries: seq<Entry>)
    ensures |Run(cfg, entries).rotated| <= cfg.keepRotations
  {
    RunKeepsInv(cfg, entries);
  }

  // ---------------------------------------------------------------- the object

  /** The numbered files are those of a list, the newest with number 1. */
  ghost predicate Numbered(m: map<nat, seq<Entry>>, files: seq<seq<Entry>>) {
    forall j: nat :: (j in m <==> 1 <= j <= |files|) && (j in m ==> m[j] == files[j - 1])
  }

  /** The disk while the rename loop has handled the numbers above `i`. */
  ghost predicate Shifted(files: seq<seq<Entry>>, keep: nat, i: nat, m: map<nat, seq<Entry>>) {
    forall j: nat ::
      && (j in m <==>
            (1 <= j <= i && j <= |files|) || (j == i + 1 == keep == |files|) || (i + 2 <= j <= keep && j - 1 <= |files|))
      && (j in m ==> m[j] == if j <= i + 1 then files[j - 1] else files[j - 2])
  }

  /** The numbers still in use run from `i` to `n`. */
  ghost predicate NumberedFrom(m: map<nat, seq<Entry>>, i: nat, n: nat) {
    forall j: nat :: j in m <==> i <= j <= n
  }

  lemma WithoutTheFirst(m: map<nat, seq<Entry>>, i: nat, n: nat)
    requires NumberedFrom(m, i, n)
    ensures NumberedFrom(m - {i}, i + 1, n) && (i !in m ==> NumberedFrom(m, i + 1, n))
  {
  }

  lemma NoneLeft(m: map<nat, seq<Entry>>, i: nat, n: nat)
    requires NumberedFrom(m, i, n) && i > n
    ensures m == map[]
  {
    assert forall j: nat :: j !in m;
  }

  class AuditLogger {
    const cfg: Config
    var current: Option<seq<Entry>>
    var rotated: map<nat, seq<Entry>>
    ghost var files: seq<seq<Entry>>
    /** Everything given to `Log` since the logs were last cleared. */
    ghost var entries: seq<Entry>

    ghost predicate Valid()
      reads this
    {
      Files(files, current) == Run(cfg, entries) && Numbered(rotated, files)
    }

    constructor (cfg: Config)
      ensures Valid() && entries == [] && this.cfg == cfg
    {
      this.cfg, current, rotated, files, entries := cfg, None, map[], [], [];
    }

    method Log(e: Entry)
      requires Valid()
      modifies this
      ensures Valid() && entries == old(entries) + [e]
      ensures Inv(cfg, Files(files, current), Accepted(cfg, entries))
    {
      assert (entries + [e])[..|entries|] == entries;
      RunKeepsInv(cfg, entries);
      Write(e);
      entries := entries + [e];
      RunKeepsInv(cfg, entries);
    }

    method Write(e: Entry)
      requires Numbered(rotated, files) && |files| <= cfg.keepRotations
      modifies this`current, this`rotated, this`files
      ensures Numbered(rotated, files)
      ensures Files(files, current) == Logged(cfg, old(Files(files, current)), e)
    {
      if cfg.enabled {
        if e.severity >= cfg.minSeverity {
          RotateIfNeeded();
          current := Some((if current.Some? then current.value else []) + [e]);
        }
      }
    }

    /** The files move up by one number, the current one becomes number 1, and the one beyond the
        last number kept goes; at most `keepRotations` are there before and after. */
    method RotateIfNeeded()
      requires Numbered(rotated, files) && |files| <= cfg.keepRotations
      modifies this`current, this`rotated, this`files
      ensures Numbered(rotated, files)
      ensures Files(files, current) == Rotated(cfg, old(Files(files, current)))
    {
      if current.None? {
        return;
      }
      if |current.value| < cfg.maxEntries {
        return;
      }
      ShiftUp();
      rotated := rotated[1 := current.value];
      files := First([current.value] + files, cfg.keepRotations);
      current := None;
      var beyond := cfg.keepRotations + 1;
      if beyond in rotated {
        rotated := rotated - {beyond};
      }
    }

    /** The descending rename loop. */
    method ShiftUp()
      requires Numbered(rotated, files) && |files| <= cfg.keepRotations
      modifies this`rotated
      ensures Shifted(files, cfg.keepRotations, 0, rotated)
    {
      var keep := cfg.keepRotations;
      var i := if keep > 0 then keep - 1 else 0;
      while i > 0
        invariant i < keep || keep == i == 0
        invariant Shifted(files, keep, i, rotated)
      {
        if i in rotated {
          rotated := (rotated - {i})[i + 1 := rotated[i]];
        }
        i := i - 1;
      }
    }

    /** Every log file is removed. */
    method Clear()
      requires Valid()
      modifies this
      ensures Valid() && entries == [] && current.None? && rotated == map[]
    {
      FewEnough(cfg, entries);
      current := None;
      RemoveRotated();
      files, entries := [], [];
    }

    method RemoveRotated()
      requires Numbered(rotated, files) && |files| <= cfg.keepRotations
      modifies this`rotated
      ensures rotated == map[]
    {
      var i := 1;
      while i <= cfg.keepRotations
        invariant 1 <= i <= cfg.keepRotations + 1 && NumberedFrom(rotated, i, |files|)
      {
        WithoutTheFirst(rotated, i, |files|);
        if i in rotated {
          rotated := rotated - {i};
        }
        i := i + 1;
      }
      NoneLeft(rotated, i, |files|);
    }
  }
}
