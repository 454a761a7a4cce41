/**
 A compaction from its input files to its output files: the merged input, what
 the outputs hold, and what the whole version holds before and after.
 */
module Merging {
  import opened Format
  import opened Versions
  import opened CompactionInputs
  import opened Compactions
  import opened Placement

  ghost function Tables(outs: seq<File>): seq<seq<Entry>> {
    seq(|outs|, i requires 0 <= i < |outs| => outs[i].entries)
  }

  /** The merged input is the sorted list of exactly the entries of the input files. */
  ghost predicate Merges(input: seq<Entry>, job: Job) {
    Sorted(input) && forall e :: e in input <==> Read(job, e)
  }

  /** The output files hold what the merge keeps, in order, and none is empty. */
  ghost predicate Compacted(input: seq<Entry>, job: Job, outs: seq<File>) {
    Written(Tables(outs), [], Kept(input, |input|, job.snapshot, job.base, job.level))
  }

  lemma {:induction false} FlatHas(cs: seq<seq<Entry>>, e: Entry)
    ensures e in Flat(cs) <==> exists k :: 0 <= k < |cs| && e in cs[k]
  {
    if cs != [] {
      FlatHas(cs[..|cs| - 1], e);
      if e in Flat(cs[..|cs| - 1]) {
        var k :| 0 <= k < |cs| - 1 && e in cs[..|cs| - 1][k];
        assert e in cs[k];
      }
      if k :| 0 <= k < |cs| && e in cs[k] {
        if k < |cs| - 1 { assert cs[..|cs| - 1][k] == cs[k]; }
      }
    }
  }

  lemma SortedParts(a: seq<Entry>, b: seq<Entry>)
    requires Sorted(a + b)
    ensures Sorted(a) && Sorted(b)
    ensures forall x, y :: x in a && y in b ==> Less(x.key, y.key)
  {
    var ab := a + b;
    assert forall i :: 0 <= i < |a| ==> ab[i] == a[i];
    assert forall i :: 0 <= i < |b| ==> ab[|a| + i] == b[i];
    forall x, y | x in a && y in b ensures Less(x.key, y.key) {
      var i :| 0 <= i < |a| && a[i] == x;
      var j :| 0 <= j < |b| && b[j] == y;
      assert Less(ab[i].key, ab[|a| + j].key);
    }
  }

  lemma {:induction false} ChunksOrdered(outs: seq<File>)
    requires Sorted(Flat(Tables(outs)))
    ensures Ordered(outs)
    ensures forall o :: o in outs ==> Sorted(o.entries)
  {
    if outs != [] {
      var init, last := outs[..|outs| - 1], outs[|outs| - 1];
      assert outs == init + [last];
      assert Tables(outs)[..|outs| - 1] == Tables(init);
      SortedParts(Flat(Tables(init)), last.entries);
      ChunksOrdered(init);
      forall i | 0 <= i < |init| ensures Less(Largest(init[i]), Smallest(last)) {
        assert Tables(init)[i] == init[i].entries;
        FlatHas(Tables(init), init[i].entries[|init[i].entries| - 1]);
        assert last.entries[0] in last.entries;
      }
    }
  }

  /** Entries outside the inputs. */
  ghost predicate Remains(v: Version, job: Job, e: Entry) {
    exists l, g :: In(v, l, g) && !(l == job.level && g in job.in0) && !(l == job.level + 1 && g in job.in1) &&
        e in g.entries
  }

  ghost function Rest(v: Version, job: Job): set<Entry> {
    set e | e in Contents(v) && Remains(v, job, e)
  }

  lemma ContentsBefore(v: Version, job: Job, input: seq<Entry>)
    requires ValidVersion(v) && InputsPresent(v, job) && Merges(input, job)
    ensures Contents(v) == Rest(v, job) + Elements(input)
  {
    forall e | e in Contents(v) ensures e in Rest(v, job) + Elements(input) {
      var l, g := FromContents(v, e);
      if (l == job.level && g in job.in0) || (l == job.level + 1 && g in job.in1) {
        assert g in Inputs(job);
        assert Read(job, e);
      } else {
        assert Remains(v, job, e);
      }
    }
    forall e | e in Elements(input) ensures e in Contents(v) {
      var f :| f in Inputs(job) && e in f.entries;
      InputIsIn(v, job, f);
      if In(v, job.level, f) { InContents(v, job.level, f, e); } else { InContents(v, job.level + 1, f, e); }
    }
  }

  lemma ContentsAfter(v: Version, job: Job, outs: seq<File>, v': Version, es: seq<Entry>)
    requires Installed(v, job, outs, v') && Flat(Tables(outs)) == es
    ensures Contents(v') == Rest(v, job) + Elements(es)
  {
    forall e | e in Contents(v') ensures e in Rest(v, job) + Elements(es) {
      var l, g := FromContents(v', e);
      InstalledHas(v, job, outs, v', l, g);
      if l == job.level + 1 && g in outs {
        var k :| 0 <= k < |outs| && outs[k] == g;
        assert Tables(outs)[k] == g.entries;
        FlatHas(Tables(outs), e);
      } else {
        InContents(v, l, g, e);
        assert Remains(v, job, e);
      }
    }
    forall e | e in Rest(v, job) + Elements(es) ensures e in Contents(v') {
      if e in Rest(v, job) {
        var l, g :| In(v, l, g) && !(l == job.level && g in job.in0) && !(l == job.level + 1 && g in job.in1) &&
            e in g.entries;
        InstalledHas(v, job, outs, v', l, g);
        InContents(v', l, g, e);
      } else {
        FlatHas(Tables(outs), e);
        var k :| 0 <= k < |outs| && e in Tables(outs)[k];
        InstalledHas(v, job, outs, v', job.level + 1, outs[k]);
        InContents(v', job.level + 1, outs[k], e);
      }
    }
  }

  lemma OutsideEntry(v: Version, job: Job, x: Entry, y: Entry)
    requires ValidVersion(v) && LevelOrder(v) && JobPlaced(v, job) && UpperNewer(v, job) && LowerNewer(v, job)
    requires Remains(v, job, x) && Read(job, y) && x.key.user == y.key.user
    ensures x.key.seqno > y.key.seqno || !IsBase(job.base, job.level, y.key.user)
  {
    var f :| f in Inputs(job) && y in f.entries;
    var l, g :| In(v, l, g) && !(l == job.level && g in job.in0) && !(l == job.level + 1 && g in job.in1) &&
        x in g.entries;
    if l < job.level + 2 {
      OutsideIsNewer(v, job, l, g, f);
    } else {
      assert In(job.base, l, g) || NoShared(g, f);
      HoldsUser(job.base, job.level, l, g, x);
    }
  }

  lemma HoldsUser(base: Version, level: nat, l: int, g: File, x: Entry)
    requires ValidVersion(base) && In(base, l, g) && level + 2 <= l && x in g.entries
    ensures !IsBase(base, level, x.key.user)
  {
    assert ValidFile(g);
    WithinFile(g, x);
  }

  lemma OutsideIsNewer(v: Version, job: Job, l: int, g: File, f: File)
    requires ValidVersion(v) && LevelOrder(v) && InputsPresent(v, job) && UpperNewer(v, job) && LowerNewer(v, job)
    requires f in Inputs(job) && In(v, l, g) && l < job.level + 2
    requires !(l == job.level && g in job.in0) && !(l == job.level + 1 && g in job.in1)
    ensures Newer(g, f)
  {
    InputIsIn(v, job, f);
    if l == job.level { assert LeftAbove(v, job, g); }
    if l == job.level + 1 { assert LeftBelow(v, job, g); }
  }

  /** The output files hold exactly the survivors. */
  lemma OutputsHold(input: seq<Entry>, job: Job, outs: seq<File>)
    requires Compacted(input, job, outs) && job.snapshot < MAX_SEQUENCE
    ensures Flat(Tables(outs)) == Survivors(input, |input|, job.snapshot, job.base, job.level)
    ensures forall e :: e in Output(input, job.snapshot, job.base, job.level) <==>
            exists o :: o in outs && e in o.entries
  {
    var es := Survivors(input, |input|, job.snapshot, job.base, job.level);
    assert Flat(Tables(outs)) == Flat(Tables(outs)) + [];
    forall e | e in es ensures exists o :: o in outs && e in o.entries {
      FlatHas(Tables(outs), e);
      var k :| 0 <= k < |outs| && e in Tables(outs)[k];
      assert outs[k] in outs;
    }
    forall o, e | o in outs && e in o.entries ensures e in es {
      var k :| 0 <= k < |outs| && outs[k] == o;
      assert Tables(outs)[k] == o.entries;
      FlatHas(Tables(outs), e);
    }
  }

  lemma OutputsFromInputs(job: Job, input: seq<Entry>, outs: seq<File>)
    requires Merges(input, job) && Compacted(input, job, outs) && job.snapshot < MAX_SEQUENCE
    requires forall e :: Read(job, e) ==> e.key.seqno <= MAX_SEQUENCE
    ensures FromInputs(job, outs)
  {
    OutputsHold(input, job, outs);
    SurvivorsSorted(input, |input|, job.snapshot, job.base, job.level);
    ChunksOrdered(outs);
    OutputWithinInput(input, job.snapshot, job.base, job.level);
    forall o, e | o in outs && e in o.entries ensures Read(job, e) {
      assert e in Output(input, job.snapshot, job.base, job.level);
    }
  }

  lemma FinishContents(v: Version, job: Job, input: seq<Entry>, outs: seq<File>, v': Version)
    requires ValidVersion(v) && InputsPresent(v, job) && Merges(input, job) && Installed(v, job, outs, v')
    requires Compacted(input, job, outs) && job.snapshot < MAX_SEQUENCE
    ensures Contents(v) == Rest(v, job) + Elements(input)
    ensures Contents(v') == Rest(v, job) + Output(input, job.snapshot, job.base, job.level)
    ensures Contents(v') <= Contents(v)
  {
    OutputsHold(input, job, outs);
    ContentsBefore(v, job, input);
    ContentsAfter(v, job, outs, v', Survivors(input, |input|, job.snapshot, job.base, job.level));
    OutputWithinInput(input, job.snapshot, job.base, job.level);
  }

  /** A single file with nothing to merge: moving it is a compaction whose output is its input. */
  lemma MoveIsInstall(v: Version, job: Job)
    requires ValidVersion(v) && JobPlaced(v, job) && |job.in0| == 1 && job.in1 == []
    ensures FromInputs(job, job.in0) && Merges(job.in0[0].entries, job) && Flat(Tables(job.in0)) == job.in0[0].entries
  {
    var f := job.in0[0];
    assert job.in0 == [f] && Inputs(job) == [f];
    assert f in Inputs(job);
    InputIsIn(v, job, f);
    forall e ensures e in f.entries <==> Read(job, e) {}
    assert Tables([f]) == [f.entries];
    assert [f.entries][..0] == [];
    assert Flat([f.entries]) == Flat([]) + f.entries;
  }
}
