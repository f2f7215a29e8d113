/** Which statement a function's body comes from (src/schema-builder.ts). */
module Provenance {
  import opened Bytes

  // A row of pg_proc. `stamp` stands for (xmin, ctid), which change whenever the row is written.
  datatype Row = Row(name: string, prosrc: string, stamp: nat)

  type Catalog = map<nat, Row>

  datatype Author = Author(migration: nat, hash: string)

  // A successful statement and the functions there were before and after it. CREATE and DROP FUNCTION are
  // watched by name, any other statement over all functions.
  datatype Step = Step(author: Author, watched: Option<string>, before: Catalog, after: Catalog)

  predicate Touched(s: Step, oid: nat)
  {
    oid in s.before && oid in s.after && s.before[oid].stamp != s.after[oid].stamp
  }

  // Writing a row changes its stamp, and a statement watched by name leaves functions of other names alone.
  ghost predicate Honest(s: Step)
  {
    (forall oid :: oid in s.before && oid in s.after && s.before[oid] != s.after[oid] ==> Touched(s, oid)) &&
    (s.watched.Some? ==>
      (forall oid :: oid in s.before && oid !in s.after ==> s.before[oid].name == s.watched.value) &&
      (forall oid :: oid in s.after && oid !in s.before ==> s.after[oid].name == s.watched.value) &&
      (forall oid :: Touched(s, oid) ==> s.before[oid].name == s.after[oid].name == s.watched.value))
  }

  // Statements one after the other, from the catalog there was before the first.
  ghost predicate Run(start: Catalog, run: seq<Step>)
  {
    (forall i :: 0 <= i < |run| ==> Honest(run[i])) &&
    (forall i :: 0 <= i < |run| ==> run[i].before == BeforeOf(start, run, i))
  }

  function BeforeOf(start: Catalog, run: seq<Step>, i: nat): Catalog
    requires i <= |run|
  {
    if i == 0 then start else run[i - 1].after
  }

  function Now(start: Catalog, run: seq<Step>): Catalog { BeforeOf(start, run, |run|) }

  // -- Attribution ----------------------------------------------------------------------------------------------

  // No statement before the k-th touched, created or dropped the function: it is as it was at the start.
  ghost predicate Untouched(start: Catalog, run: seq<Step>, k: nat, oid: nat)
    requires k <= |run|
  {
    oid in start && forall j :: 0 <= j < k ==> oid in run[j].after && !Touched(run[j], oid)
  }

  // The k-th statement created the function, changed its body, or was the first to touch one that had been
  // there from the start.
  ghost predicate Authored(start: Catalog, run: seq<Step>, k: nat, oid: nat)
    requires k < |run|
  {
    var s := run[k];
    oid in s.after &&
    (oid !in s.before || s.before[oid].prosrc != s.after[oid].prosrc ||
     (Touched(s, oid) && Untouched(start, run, k, oid)))
  }

  ghost predicate LastAuthor(start: Catalog, run: seq<Step>, k: nat, oid: nat)
  {
    k < |run| && Authored(start, run, k, oid) && forall j :: k < j < |run| ==> !Authored(start, run, j, oid)
  }

  // Looking at one statement more changes nothing about the earlier ones.
  lemma AuthoredBefore(start: Catalog, run: seq<Step>, s: Step, k: nat, oid: nat)
    requires k < |run|
    ensures Authored(start, run + [s], k, oid) <==> Authored(start, run, k, oid)
  {
    var all := run + [s];
    assert all[k] == run[k];
    UntouchedBefore(start, run, s, k, oid);
  }

  lemma UntouchedBefore(start: Catalog, run: seq<Step>, s: Step, k: nat, oid: nat)
    requires k <= |run|
    ensures Untouched(start, run + [s], k, oid) <==> Untouched(start, run, k, oid)
  {
    var all := run + [s];
    assert forall j :: 0 <= j < k ==> all[j] == run[j];
  }

  lemma StillLastAuthor(start: Catalog, run: seq<Step>, s: Step, k: nat, oid: nat)
    requires LastAuthor(start, run, k, oid) && !Authored(start, run + [s], |run|, oid)
    ensures LastAuthor(start, run + [s], k, oid)
  {
    hide Authored;
    AuthoredBefore(start, run, s, k, oid);
    forall j | k < j < |run + [s]| ensures !Authored(start, run + [s], j, oid) {
      if j < |run| { AuthoredBefore(start, run, s, j, oid); }
    }
  }

  // An untouched function is what it was.
  lemma {:induction false} UntouchedSame(start: Catalog, run: seq<Step>, k: nat, oid: nat)
    requires Run(start, run) && k <= |run| && Untouched(start, run, k, oid)
    ensures oid in BeforeOf(start, run, k) && BeforeOf(start, run, k)[oid] == start[oid]
    decreases k
  {
    hide Honest;
    if k > 0 {
      assert Untouched(start, run, k - 1, oid);
      UntouchedSame(start, run, k - 1, oid);
      var s := run[k - 1];
      assert Honest(s) && s.before == BeforeOf(start, run, k - 1);
      assert oid in s.after && !Touched(s, oid);
      SameRow(s, oid);
    }
  }

  lemma SameRow(s: Step, oid: nat)
    requires Honest(s) && oid in s.before && oid in s.after && !Touched(s, oid)
    ensures s.after[oid] == s.before[oid]
  {
  }

  // -- The tracker -----------------------------------------------------------------------------------------------

  datatype Entry = Entry(author: Author, bodyText: string)

  // What a snapshot shows: all functions, or those of one name.
  function Snapshot(c: Catalog, watched: Option<string>): map<nat, nat>
  {
    map oid | oid in c && (watched.Some? ==> c[oid].name == watched.value) :: c[oid].stamp
  }

  // One function of the "after" snapshot.
  function Recorded(s: Step, oid: nat, provenance: map<nat, Entry>): map<nat, Entry>
    requires oid in s.after
  {
    var before := Snapshot(s.before, s.watched);
    var entry := Entry(s.author, s.after[oid].prosrc);
    if oid !in before then provenance[oid := entry]
    else if before[oid] != s.after[oid].stamp then
      if oid !in provenance ||
          provenance[oid].bodyText != s.after[oid].prosrc then provenance[oid := entry] else provenance
    else provenance
  }

  // Every live function is tracked with its current body and attributed to its last author, or it is as it
  // was before the first statement and known to be from then. Nothing else is tracked.
  ghost predicate Tracks(start: Catalog, run: seq<Step>, provenance: map<nat, Entry>)
  {
    provenance.Keys <= Now(start, run).Keys &&
    (forall oid :: oid in Now(start, run) ==> TracksOne(start, run, provenance, oid))
  }

  ghost predicate TracksOne(start: Catalog, run: seq<Step>, provenance: map<nat, Entry>, oid: nat)
    requires oid in Now(start, run)
  {
    if oid in provenance then
      provenance[oid].bodyText == Now(start, run)[oid].prosrc &&
      exists k: nat :: LastAuthor(start, run, k, oid) && run[k].author == provenance[oid].author
    else Untouched(start, run, |run|, oid)
  }

  // The entry a statement leaves behind, or none.
  predicate Follows(s: Step, oid: nat, earlier: map<nat, Entry>, later: map<nat, Entry>)
  {
    if oid !in s.after then oid !in later
    else if oid !in s.before ||
        (Touched(s, oid) && (oid !in earlier || earlier[oid].bodyText != s.after[oid].prosrc)) then
      oid in later && later[oid] == Entry(s.author, s.after[oid].prosrc)
    else (oid in later <==> oid in earlier) && (oid in earlier ==> later[oid] == earlier[oid])
  }

  lemma FollowsTracks(
    start: Catalog, run: seq<Step>, s: Step, oid: nat, earlier: map<nat, Entry>, later: map<nat, Entry>)
    requires oid in Now(start, run) ==> TracksOne(start, run, earlier, oid)
    requires Run(start, run + [s]) && Follows(s, oid, earlier, later) && oid in s.after && s.before == Now(start, run)
    requires earlier.Keys <= Now(start, run).Keys
    ensures TracksOne(start, run + [s], later, oid)
  {
    var all := run + [s];
    assert all[|run|] == s && Honest(s);
    RunBefore(start, run, s);
    UntouchedBefore(start, run, s, |run|, oid);
    if oid !in s.before {
      assert LastAuthor(start, all, |run|, oid);
    } else if oid !in earlier {
      UntouchedStep(start, run, s, oid);
      if Touched(s, oid) {
        assert LastAuthor(start, all, |run|, oid);
      }
    } else {
      var k: nat :| LastAuthor(start, run, k, oid) && run[k].author == earlier[oid].author;
      AuthorTouched(start, run, k, oid);
      assert all[k] == run[k];
      if Touched(s, oid) && earlier[oid].bodyText != s.after[oid].prosrc {
        assert LastAuthor(start, all, |run|, oid);
      } else {
        NotAuthored(start, run, s, oid);
        StillLastAuthor(start, run, s, k, oid);
      }
    }
  }

  lemma RunBefore(start: Catalog, run: seq<Step>, s: Step)
    requires Run(start, run + [s])
    ensures Run(start, run) && s.before == Now(start, run) && Honest(s)
  {
    hide Honest;
    var all := run + [s];
    forall i | 0 <= i < |run| ensures Honest(run[i]) && run[i].before == BeforeOf(start, run, i) {
      assert all[i] == run[i] && Honest(all[i]) && all[i].before == BeforeOf(start, all, i);
      assert i > 0 ==> all[i - 1] == run[i - 1];
    }
    assert all[|run|] == s && s.before == BeforeOf(start, all, |run|) && Honest(all[|run|]);
    assert run != [] ==> all[|run| - 1] == run[|run| - 1];
  }

  lemma UntouchedStep(start: Catalog, run: seq<Step>, s: Step, oid: nat)
    requires oid in s.after
    ensures Untouched(start, run + [s], |run| + 1, oid) <==> Untouched(start, run, |run|, oid) && !Touched(s, oid)
  {
    var all := run + [s];
    assert all[|run|] == s && forall j :: 0 <= j < |run| ==> all[j] == run[j];
  }

  // Where a function has an author it is no longer untouched.
  lemma AuthorTouched(start: Catalog, run: seq<Step>, k: nat, oid: nat)
    requires Run(start, run) && k < |run| && Authored(start, run, k, oid)
    ensures !Untouched(start, run, |run|, oid)
  {
    if Untouched(start, run, |run|, oid) {
      assert Untouched(start, run, k, oid) && Untouched(start, run, k + 1, oid);
      UntouchedSame(start, run, k, oid);
    }
  }

  lemma NotAuthored(start: Catalog, run: seq<Step>, s: Step, oid: nat)
    requires oid in s.before && oid in s.after && s.before[oid].prosrc == s.after[oid].prosrc
    requires !Untouched(start, run, |run|, oid)
    ensures !Authored(start, run + [s], |run|, oid)
  {
    UntouchedBefore(start, run, s, |run|, oid);
  }

  lemma TracksFollows(start: Catalog, run: seq<Step>, s: Step, earlier: map<nat, Entry>, later: map<nat, Entry>)
    requires Run(start, run + [s]) && Tracks(start, run, earlier)
    requires forall oid :: Follows(s, oid, earlier, later)
    ensures Tracks(start, run + [s], later)
  {
    hide TracksOne, Follows, Run;
    RunBefore(start, run, s);
    forall oid | oid in later ensures oid in s.after {
      if oid !in s.after { Gone(s, oid, earlier, later); }
    }
    forall oid | oid in s.after ensures TracksOne(start, run + [s], later, oid) {
      FollowsTracks(start, run, s, oid, earlier, later);
    }
  }

  lemma Gone(s: Step, oid: nat, earlier: map<nat, Entry>, later: map<nat, Entry>)
    requires Follows(s, oid, earlier, later) && oid !in s.after
    ensures oid !in later
  {
  }

  predicate SameAt(a: map<nat, Entry>, b: map<nat, Entry>, oid: nat)
  {
    (oid in a <==> oid in b) && (oid in a ==> a[oid] == b[oid])
  }

  // What the diff of the two snapshots leaves for one function.
  lemma RecordedFollows(s: Step, oid: nat, earlier: map<nat, Entry>, later: map<nat, Entry>)
    requires Honest(s) && earlier.Keys <= s.before.Keys
    requires var before, after := Snapshot(s.before, s.watched), Snapshot(s.after, s.watched);
      if oid in after then SameAt(later, Recorded(s, oid, earlier), oid)
      else if oid in before then oid !in later
      else SameAt(later, earlier, oid)
    ensures Follows(s, oid, earlier, later)
  {
  }

  lemma RecordedStep(s: Step, oid: nat, earlier: map<nat, Entry>, later: map<nat, Entry>)
    requires oid in s.after && SameAt(later, earlier, oid)
    ensures SameAt(Recorded(s, oid, later), Recorded(s, oid, earlier), oid)
    ensures forall o :: o != oid ==> SameAt(Recorded(s, oid, later), later, o)
  {
    hide Snapshot;
  }

  predicate RecordedSoFar(s: Step, earlier: map<nat, Entry>, later: map<nat, Entry>, pending: set<nat>, oid: nat)
  {
    if oid in Snapshot(s.after, s.watched) && oid !in pending then oid in s.after &&
        SameAt(later, Recorded(s, oid, earlier), oid)
    else SameAt(later, earlier, oid)
  }

  // Diffing the snapshots taken around a statement.
  method Diff(s: Step, earlier: map<nat, Entry>) returns (later: map<nat, Entry>)
    requires Honest(s) && earlier.Keys <= s.before.Keys
    ensures forall oid :: Follows(s, oid, earlier, later)
  {
    hide Recorded, Honest, Follows;
    var before, after := Snapshot(s.before, s.watched), Snapshot(s.after, s.watched);
    later := earlier;
    var pending := after.Keys;
    while pending != {}
      invariant pending <= after.Keys
      invariant forall oid :: RecordedSoFar(s, earlier, later, pending, oid)
      decreases |pending|
    {
      var oid :| oid in pending;
      assert RecordedSoFar(s, earlier, later, pending, oid);
      RecordedStep(s, oid, earlier, later);
      ghost var previous, rest := later, pending;
      later := Recorded(s, oid, later);
      pending := pending - {oid};
      forall o ensures RecordedSoFar(s, earlier, later, pending, o) {
        assert RecordedSoFar(s, earlier, previous, rest, o);
        assert o != oid ==> SameAt(later, previous, o);
      }
    }
    ghost var all := later;
    var dropped := before.Keys - after.Keys;
    later := later - dropped;
    forall oid ensures Follows(s, oid, earlier, later) {
      assert RecordedSoFar(s, earlier, all, {}, oid);
      RecordedFollows(s, oid, earlier, later);
    }
  }

  class SchemaBuilder {
    var provenance: map<nat, Entry>
    var preExisting: set<nat>
    ghost var start: Catalog
    ghost var run: seq<Step>

    ghost predicate Valid()
      reads this
    {
      Run(start, run) && preExisting == start.Keys && Tracks(start, run, provenance)
    }

    // The snapshot before any migration.
    constructor (catalog: Catalog)
      ensures Valid() && start == catalog && run == [] && provenance == map[] && preExisting == catalog.Keys
    {
      provenance := map[];
      preExisting := catalog.Keys;
      start := catalog;
      run := [];
    }

    // A statement has been applied: diff the snapshots taken around it.
    method OnAfterStatementApplied(s: Step)
      requires Valid() && Run(start, run + [s])
      modifies this
      ensures Valid() && run == old(run) + [s] && start == old(start) && preExisting == old(preExisting)
      ensures forall oid :: Follows(s, oid, old(provenance), provenance)
    {
      hide Follows, Tracks, Run, Honest;
      ghost var earlier := provenance;
      RunBefore(start, run, s);
      OnlyLive(start, run, provenance);
      provenance := Diff(s, provenance);
      TracksFollows(start, run, s, earlier, provenance);
      run := run + [s];
    }

    // At validation every survivor is tracked or pre-existing, so no missing provenance is ever reported.
    method MissingProvenance(surviving: seq<nat>) returns (warnings: seq<nat>)
      requires Valid() && forall i :: 0 <= i < |surviving| ==> surviving[i] in Now(start, run)
      ensures warnings == []
      ensures forall i :: 0 <= i < |surviving| ==>
        surviving[i] in provenance || (surviving[i] in preExisting && Untouched(start, run, |run|, surviving[i]))
    {
      warnings := [];
      for i := 0 to |surviving|
        invariant warnings == []
        invariant forall k :: 0 <= k < i ==>
          surviving[k] in provenance || (surviving[k] in preExisting && Untouched(start, run, |run|, surviving[k]))
      {
        var oid := surviving[i];
        assert TracksOne(start, run, provenance, oid);
        if oid !in provenance && oid !in preExisting { warnings := warnings + [oid]; }
      }
    }
  }

  lemma OnlyLive(start: Catalog, run: seq<Step>, provenance: map<nat, Entry>)
    requires Tracks(start, run, provenance)
    ensures provenance.Keys <= Now(start, run).Keys
  {
  }

  // Over a whole run, a live function is attributed exactly when it is no longer what it was at the start, and
  // then to its last author.
  lemma EveryRun(start: Catalog, run: seq<Step>, provenance: map<nat, Entry>, oid: nat)
    requires Run(start, run) && Tracks(start, run, provenance) && oid in Now(start, run)
    ensures oid in provenance <==> exists k: nat :: k < |run| && Authored(start, run, k, oid)
    ensures oid in provenance <==> !Untouched(start, run, |run|, oid)
  {
    hide Run, Authored, Untouched;
    assert TracksOne(start, run, provenance, oid);
    if k: nat :| k < |run| && Authored(start, run, k, oid) { AuthorTouched(start, run, k, oid); }
    if oid in provenance {
      var k: nat :| LastAuthor(start, run, k, oid) && run[k].author == provenance[oid].author;
      AuthorTouched(start, run, k, oid);
    }
  }
}
