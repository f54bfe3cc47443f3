/** A reservation that fails because every candidate name is taken, and removes a directory that it
    never made. */
module SnapshotSweep {
  import opened Wrappers
  import opened SnapshotLog
  import opened SnapshotRollback

  function Candidate(i: nat): Name {
    Public(seq(i + 1, _ => 'x'))
  }

  /** A directory whose 32 entries carry the 32 candidate names, each an empty directory. */
  function Crowded(): Files {
    var keys := set i | 0 <= i < 32 :: Key(0, Candidate(i));
    Files(map k | k in keys :: KeyNode(k), {0} + (set k | k in keys :: KeyNode(k)), None, 33)
  }

  function KeyNode(k: Key): Node {
    if k.name.Public? then |k.name.text| else 0
  }

  function Candidates(): seq<Name> {
    seq(32, i requires 0 <= i < 32 => Candidate(i))
  }

  lemma CrowdedIsFull()
    ensures WellFormed(Crowded(), 0) && AllTaken(Crowded(), 0, Candidates())
    ensures Key(0, Public("final")) !in Crowded().entries
    ensures EmptyDirectory(Crowded(), Key(0, Candidate(31)), 32)
  {
    var f := Crowded();
    forall k | k in f.entries
      ensures k.dir == 0 && k.name.Public? && 1 <= |k.name.text| <= 32 && k.name.text[0] == 'x'
    {
      var i :| 0 <= i < 32 && k == Key(0, Candidate(i));
    }
    forall j: nat | j < 32
      ensures Key(0, Candidates()[j]) in f.entries
    {
      assert Candidates()[j] == Candidate(j);
    }
    assert Key(0, Candidates()[31]) in f.entries;
    assert f.entries[Key(0, Candidate(31))] == 32;
  }

  /** The reservation finds all 32 names taken, fails, and takes the last directory with it. */
  method ReservationSweepsForeignDirectory() returns (run: Run, ghost at: nat)
    ensures run.Valid() && run.start == Crowded() && NamesDirectory(run.start, Key(0, Candidate(31)), 32)
    ensures at < |run.log| && Foreign([], run.log, at) && run.log[at].deed == Swept(Key(0, Candidate(31)), Some(32))
    ensures Key(0, Candidate(31)) !in run.files.entries
  {
    CrowdedIsFull();
    var candidates := Candidates();
    assert candidates[31] == Candidate(31);
    assert forall c :: c in candidates ==> c.Public?;
    assert SweepTarget(Crowded(), Key(0, Candidate(31)), false) == Some(32);
    run := new Run(Crowded(), [], 0);
    ghost var before := run.log;
    var r;
    ghost var attempts, sweeps, entered;
    hide Crowded, Candidate, Candidates, AllTaken, Foreign, SweptNames, SweepTarget, EmptyDirectory, Run.Valid;
    r, attempts, sweeps, entered := run.Reserve(0, "final", candidates);
    at := sweeps[0];
  }
}
