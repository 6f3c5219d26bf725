/** Create-only publication of a snapshot, committed by a marker object.

    The bucket is the destination root: names are relative to it. Other writers may act
    before every operation, and every operation may raise or die before or after its effect.
 */
module TrainingSnapshotPublication {
  import opened VersionedBucket

  datatype LocalFile = LocalFile(name: string, content: Content)

  datatype Outcome<T> = Done(value: T) | Failed

  datatype Evidence = Evidence(generations: seq<nat>, markerGeneration: nat)

  /** What the publisher did and saw. `replacing` tells whether the name was taken. */
  datatype Event =
    | Created(name: string, generation: nat, content: Content, replacing: bool)
    | Listed(names: set<string>)
    | Read(name: string, generation: nat, content: Content)

  const COMPLETION_MARKER := "_control/publication_manifest.json"
  const MANIFEST := "manifest.json"

  function Names(files: seq<LocalFile>): set<string> {
    set i | 0 <= i < |files| :: files[i].name
  }

  /** Files of one directory have different relative names. */
  predicate DistinctFiles(files: seq<LocalFile>) {
    forall i, j :: 0 <= i < j < |files| ==> files[i].name != files[j].name
  }

  /** The local directory has a manifest and leaves the marker's name free. */
  predicate Publishable(files: seq<LocalFile>) {
    && (exists i :: 0 <= i < |files| && files[i].name == MANIFEST)
    && (forall i :: 0 <= i < |files| ==> files[i].name != COMPLETION_MARKER)
  }

  /** The file is live, at this generation and with this content. */
  predicate Stored(b: Bucket, f: LocalFile, generation: nat) {
    && LiveAt(b, f.name, generation)
    && (f.name, generation) in b.versions && b.versions[(f.name, generation)].content == f.content
  }

  ghost predicate AllStored(b: Bucket, files: seq<LocalFile>, gens: seq<nat>)
    requires |gens| == |files|
  {
    forall i :: 0 <= i < |files| ==> Stored(b, files[i], gens[i])
  }

  /** The bucket has kept what was recorded for each file, live or not. */
  ghost predicate AllRecorded(b: Bucket, files: seq<LocalFile>, gens: seq<nat>)
    requires |gens| == |files|
  {
    forall i :: 0 <= i < |files| ==>
      (files[i].name, gens[i]) in b.versions && b.versions[(files[i].name, gens[i])].content == files[i].content
  }

  /** Generations that existed in `b` are live in it. */
  ghost predicate KnownAreLive(b: Bucket, files: seq<LocalFile>, gens: seq<nat>)
    requires |gens| == |files|
  {
    forall i :: 0 <= i < |files| && gens[i] < b.next ==> LiveAt(b, files[i].name, gens[i])
  }

  // ---------------------------------------------------------------------------
  // The event sequence that justifies a commit
  // ---------------------------------------------------------------------------

  /** Each file is created and read back. */
  ghost function Uploads(files: seq<LocalFile>, gens: seq<nat>): seq<Event>
    requires |gens| == |files|
  {
    if files == [] then []
    else
      var k := |files| - 1;
      Uploads(files[..k], gens[..k]) + UploadEvents(files[k], gens[k])
  }

  /** Each file is read back at its recorded generation and content. */
  ghost function Readbacks(files: seq<LocalFile>, gens: seq<nat>): seq<Event>
    requires |gens| == |files|
  {
    if files == [] then []
    else
      var k := |files| - 1;
      Readbacks(files[..k], gens[..k]) + [Read(files[k].name, gens[k], files[k].content)]
  }

  /** One file, created and read back. */
  ghost function UploadEvents(f: LocalFile, g: nat): seq<Event> {
    [Created(f.name, g, f.content, false), Read(f.name, g, f.content)]
  }

  lemma UploadsGrow(events: seq<Event>, files: seq<LocalFile>, gens: seq<nat>, i: nat, g: nat)
    requires |gens| == i < |files|
    ensures events + Uploads(files[..i + 1], gens + [g])
            == (events + Uploads(files[..i], gens)) + UploadEvents(files[i], g)
  {
    assert files[..i + 1][..i] == files[..i] && (gens + [g])[..i] == gens;
    Associates(events, Uploads(files[..i], gens), UploadEvents(files[i], g));
  }

  lemma Associates(a: seq<Event>, b: seq<Event>, c: seq<Event>)
    ensures a + (b + c) == (a + b) + c
  {
  }

  lemma ReadbacksGrow(files: seq<LocalFile>, gens: seq<nat>, i: nat)
    requires |gens| == |files| && i < |files|
    ensures Readbacks(files[..i + 1], gens[..i + 1])
            == Readbacks(files[..i], gens[..i]) + [Read(files[i].name, gens[i], files[i].content)]
  {
    assert files[..i + 1][..i] == files[..i] && gens[..i + 1][..i] == gens[..i];
  }

  lemma RecordingStays(b: Bucket, b': Bucket, files: seq<LocalFile>, gens: seq<nat>)
    requires |gens| == |files| && AllRecorded(b, files, gens) && Grown(b, b')
    ensures AllRecorded(b', files, gens)
  {
  }

  lemma RecordingGrows(b: Bucket, b': Bucket, files: seq<LocalFile>, gens: seq<nat>, i: nat, g: nat)
    requires |gens| == i < |files| && AllRecorded(b, files[..i], gens)
    requires Grown(b, b') && Stored(b', files[i], g)
    ensures AllRecorded(b', files[..i + 1], gens + [g])
  {
    forall j | 0 <= j < i
      ensures (files[j].name, gens[j]) in b'.versions
      ensures b'.versions[(files[j].name, gens[j])].content == files[j].content
    {
      assert files[..i][j] == files[j];
    }
  }

  /** One more creation, undisturbed. */
  lemma StoringGrows(b: Bucket, files: seq<LocalFile>, gens: seq<nat>, i: nat, g: nat)
    requires |gens| == i < |files| && ValidBucket(b) && DistinctFiles(files)
    requires b.live.Keys == Names(files[..i]) && AllStored(b, files[..i], gens)
    requires Stored(Written(b, files[i].name, Version(files[i].content, true)), files[i], g)
    ensures var b' := Written(b, files[i].name, Version(files[i].content, true));
            b'.live.Keys == Names(files[..i + 1]) && AllStored(b', files[..i + 1], gens + [g])
  {
    var b' := Written(b, files[i].name, Version(files[i].content, true));
    forall j | 0 <= j < i ensures Stored(b', files[j], gens[j]) {
      assert files[..i][j] == files[j] && Stored(b, files[..i][j], gens[j]);
    }
    NamesGrow(files, i);
  }

  lemma NamesGrow(files: seq<LocalFile>, i: nat)
    requires i < |files|
    ensures Names(files[..i + 1]) == Names(files[..i]) + {files[i].name}
  {
    forall name | name in Names(files[..i]) ensures name in Names(files[..i + 1]) {
      var j :| 0 <= j < i && files[..i][j].name == name;
      assert files[..i + 1][j].name == name;
    }
    assert files[..i + 1][i].name == files[i].name;
  }

  lemma NotYetStored(b: Bucket, files: seq<LocalFile>, i: nat)
    requires i < |files| && DistinctFiles(files) && b.live.Keys == Names(files[..i])
    ensures files[i].name !in b.live
  {
  }

  /** What is live later under a generation that was already there was stored then. */
  lemma StoredAtCommit(
    a: Bucket, b: Bucket, b': Bucket, files: seq<LocalFile>, gens: seq<nat>, marker: LocalFile, g: nat)
    requires |gens| == |files| && ValidBucket(a) && ValidBucket(b)
    requires AllRecorded(a, files, gens) && Grown(a, b) && Stored(b, marker, g)
    requires Descends(b, b') && KnownAreLive(b', files + [marker], gens + [g])
    ensures AllStored(b, files + [marker], gens + [g])
  {
    forall i | 0 <= i < |files| ensures Stored(b, files[i], gens[i]) {
      assert (files[i].name, gens[i]) in a.versions;
      assert (files + [marker])[i] == files[i] && (gens + [g])[i] == gens[i];
    }
  }

  /** An undisturbed marker completes the destination. */
  lemma MarkerIsLast(b: Bucket, b': Bucket, files: seq<LocalFile>, gens: seq<nat>, marker: LocalFile, g: nat)
    requires |gens| == |files| && ValidBucket(b) && DistinctFiles(files) && Publishable(files)
    requires marker.name == COMPLETION_MARKER
    ensures b.live.Keys == Names(files) && AllStored(b, files, gens)
            && b' == Written(b, marker.name, Version(marker.content, true)) && Stored(b', marker, g) ==>
              b'.live.Keys == Names(files + [marker]) && AllStored(b', files + [marker], gens + [g])
  {
    if b.live.Keys == Names(files) && AllStored(b, files, gens)
       && b' == Written(b, marker.name, Version(marker.content, true)) && Stored(b', marker, g) {
      var all := files + [marker];
      assert all[..|files|] == files && all[..|files| + 1] == all;
      StoringGrows(b, all, gens, |files|, g);
    }
  }

  /** The listing is exact, and everything is read back. */
  ghost function Inspection(files: seq<LocalFile>, gens: seq<nat>): seq<Event>
    requires |gens| == |files|
  {
    [Listed(Names(files))] + Readbacks(files, gens)
  }

  /** The destination was empty, all files were created, and all of them were inspected. */
  ghost function BeforeCommit(files: seq<LocalFile>, gens: seq<nat>): seq<Event>
    requires |gens| == |files|
  {
    [Listed({})] + Uploads(files, gens) + Inspection(files, gens)
  }

  /** The marker, wherever it appears in the trace, comes right after a complete justification. */
  ghost predicate CommitJustified(trace: seq<Event>, files: seq<LocalFile>) {
    forall p :: 0 <= p < |trace| && trace[p].Created? && trace[p].name == COMPLETION_MARKER ==>
      exists gens :: |gens| == |files| && trace[..p] == BeforeCommit(files, gens)
  }

  /** Every object the publisher created was new under its name. */
  ghost predicate CreateOnly(trace: seq<Event>) {
    forall p :: 0 <= p < |trace| && trace[p].Created? ==> !trace[p].replacing
  }

  /** New objects only, and no marker among them. */
  ghost predicate DataOnly(trace: seq<Event>) {
    CreateOnly(trace) && forall p :: 0 <= p < |trace| && trace[p].Created? ==> trace[p].name != COMPLETION_MARKER
  }

  ghost predicate CreatesNothing(events: seq<Event>) {
    forall p :: 0 <= p < |events| ==> !events[p].Created?
  }

  /** The marker appears at most once, right after these events. */
  ghost predicate MarkerFollows(trace: seq<Event>, before: seq<Event>) {
    forall p :: 0 <= p < |trace| && trace[p].Created? && trace[p].name == COMPLETION_MARKER ==> trace[..p] == before
  }

  lemma FollowingJustifies(trace: seq<Event>, files: seq<LocalFile>, gens: seq<nat>)
    requires |gens| == |files| && MarkerFollows(trace, BeforeCommit(files, gens))
    ensures CommitJustified(trace, files)
  {
  }

  lemma MarkerFollowsAtCommit(trace: seq<Event>, before: seq<Event>)
    requires DataOnly(before) && before <= trace && |trace| <= |before| + 1
    ensures MarkerFollows(trace, before)
  {
    forall p | 0 <= p < |before| && trace[p].Created? ensures trace[p].name != COMPLETION_MARKER {
      assert before[p] == trace[p];
    }
    assert trace[..|before|] == before;
  }

  lemma NothingToJustify(trace: seq<Event>, files: seq<LocalFile>)
    requires DataOnly(trace)
    ensures CommitJustified(trace, files)
  {
  }

  lemma CreationsComeFirst(trace: seq<Event>, later: seq<Event>)
    requires trace <= later && CreatesNothing(later[|trace|..])
    ensures forall p :: 0 <= p < |later| && later[p].Created? ==>
                          p < |trace| && later[p] == trace[p] && later[..p] == trace[..p]
  {
    forall p | |trace| <= p < |later| ensures !later[p].Created? {
      assert later[p] == later[|trace|..][p - |trace|];
    }
  }

  lemma MarkerStillFollows(trace: seq<Event>, later: seq<Event>, before: seq<Event>)
    requires trace <= later && CreatesNothing(later[|trace|..])
    requires MarkerFollows(trace, before) && CreateOnly(trace)
    ensures MarkerFollows(later, before) && CreateOnly(later)
  {
    CreationsComeFirst(trace, later);
  }

  lemma DataStaysData(trace: seq<Event>, later: seq<Event>)
    requires trace <= later && CreatesNothing(later[|trace|..]) && DataOnly(trace)
    ensures DataOnly(later)
  {
    CreationsComeFirst(trace, later);
  }

  /** Every object that was live still is, at the same generation. */
  ghost predicate Keeps(b: Bucket, b': Bucket) {
    forall n :: n in b.live ==> LiveAt(b', n, b.live[n])
  }

  lemma KeepsTransitively(a: Bucket, b: Bucket, c: Bucket)
    requires Keeps(a, b) && Keeps(b, c)
    ensures Keeps(a, c)
  {
    forall n | n in a.live ensures LiveAt(c, n, a.live[n]) {
      assert LiveAt(b, n, a.live[n]);
    }
  }

  class Publisher {
    const weather: nat -> Weather
    var bucket: Bucket
    var tick: nat
    ghost var trace: seq<Event>

    constructor (bucket: Bucket, weather: nat -> Weather)
      requires ValidBucket(bucket)
      ensures Valid() && this.bucket == bucket && this.weather == weather && trace == []
    {
      this.bucket, this.weather := bucket, weather;
      tick, trace := 0, [];
    }

    ghost predicate Valid()
      reads this
    {
      ValidBucket(bucket)
    }

    /** No other writer and no fault, ever. */
    ghost predicate Calm() {
      forall t: nat :: weather(t) == Weather([], NoFault)
    }

    /** No other writer, whatever faults there are. */
    ghost predicate Alone() {
      forall t: nat :: weather(t).acts == []
    }

    method Begin() returns (fault: Fault)
      requires Valid()
      modifies this`bucket, this`tick
      ensures Valid() && Descends(old(bucket), bucket)
      ensures bucket == PerformAll(old(bucket), weather(old(tick)).acts)
      ensures tick == old(tick) + 1 && fault == weather(old(tick)).fault
      ensures Alone() ==> bucket == old(bucket)
      ensures Calm() ==> bucket == old(bucket) && fault.NoFault?
    {
      OthersDescend(bucket, weather(tick).acts);
      fault := weather(tick).fault;
      bucket := PerformAll(bucket, weather(tick).acts);
      tick := tick + 1;
    }

    method ListObjects() returns (r: Outcome<set<string>>)
      requires Valid()
      modifies this`bucket, this`tick, this`trace
      ensures Valid() && Descends(old(bucket), bucket)
      ensures r.Failed? ==> trace == old(trace)
      ensures r.Done? ==> trace == old(trace) + [Listed(r.value)] && r.value == bucket.live.Keys
      ensures Alone() ==> bucket == old(bucket)
      ensures Calm() ==> r.Done?
    {
      var fault := Begin();
      if !fault.NoFault? {
        return Failed;
      }
      trace := trace + [Listed(bucket.live.Keys)];
      r := Done(bucket.live.Keys);
    }

    /** Creation with generation precondition 0: it fails when the name is taken. Behind the acts of
        others it does nothing, or it creates the object under a free name, and the event says so. */
    method Create(f: LocalFile) returns (r: Outcome<nat>)
      requires Valid()
      modifies this`bucket, this`tick, this`trace
      ensures Valid() && Descends(old(bucket), bucket)
      ensures var others := PerformAll(old(bucket), weather(old(tick)).acts);
              || (bucket == others && trace == old(trace))
              || (f.name !in others.live && bucket == Written(others, f.name, Version(f.content, true))
                  && trace == old(trace) + [Created(f.name, others.next, f.content, false)])
      ensures Alone() ==> Keeps(old(bucket), bucket)
      ensures r.Done? ==>
                && trace == old(trace) + [Created(f.name, r.value, f.content, false)]
                && Stored(bucket, f, r.value)
      ensures Calm() ==>
                && (r.Done? <==> f.name !in old(bucket).live)
                && (r.Done? ==> bucket == Written(old(bucket), f.name, Version(f.content, true)))
    {
      ghost var before := bucket;
      var fault := Begin();
      if fault.KillBefore? || fault.RaiseBefore? || f.name in bucket.live {
        return Failed;
      }
      var generation := bucket.next;
      trace := trace + [Created(f.name, generation, f.content, f.name in bucket.live)];
      ghost var unwritten := bucket;
      bucket := Written(bucket, f.name, Version(f.content, true));
      assert Descends(unwritten, bucket);
      DescendsTransitively(before, unwritten, bucket);
      r := if fault.NoFault? then Done(generation) else Failed;
    }

    /** Reads a live object, provided it is still at this generation. */
    method ReadObject(name: string, generation: nat) returns (r: Outcome<Content>)
      requires Valid()
      modifies this`bucket, this`tick, this`trace
      ensures Valid() && Descends(old(bucket), bucket)
      ensures r.Failed? ==> trace == old(trace)
      ensures r.Done? ==>
                && trace == old(trace) + [Read(name, generation, r.value)]
                && LiveAt(bucket, name, generation)
                && r.value == bucket.versions[(name, generation)].content
      ensures Alone() ==> bucket == old(bucket)
      ensures Calm() ==> (r.Done? <==> LiveAt(bucket, name, generation))
    {
      var fault := Begin();
      if !fault.NoFault? || name !in bucket.live || bucket.live[name] != generation {
        return Failed;
      }
      var content := bucket.versions[(name, generation)].content;
      trace := trace + [Read(name, generation, content)];
      r := Done(content);
    }

    /** Reads one file back; it must still hold what was recorded for it. */
    method VerifyObject(f: LocalFile, generation: nat) returns (ok: bool)
      requires Valid()
      modifies this`bucket, this`tick, this`trace
      ensures Valid() && Descends(old(bucket), bucket)
      ensures old(trace) <= trace && CreatesNothing(trace[|old(trace)|..])
      ensures ok ==> trace == old(trace) + [Read(f.name, generation, f.content)] && Stored(bucket, f, generation)
      ensures Alone() ==> bucket == old(bucket)
      ensures Calm() ==> (ok <==> Stored(bucket, f, generation))
    {
      var content := ReadObject(f.name, generation);
      ok := content.Done? && content.value == f.content;
    }

    /** Creates one file and reads it back. */
    method Upload(f: LocalFile) returns (r: Outcome<nat>)
      requires Valid() && f.name != COMPLETION_MARKER && DataOnly(trace)
      modifies this`bucket, this`tick, this`trace
      ensures Valid() && Descends(old(bucket), bucket) && DataOnly(trace)
      ensures Alone() ==> Keeps(old(bucket), bucket)
      ensures r.Done? ==> Stored(bucket, f, r.value)
      ensures r.Done? ==>
                trace == old(trace) + UploadEvents(f, r.value)
      ensures Calm() && f.name !in old(bucket).live ==>
                r.Done? && bucket == Written(old(bucket), f.name, Version(f.content, true))
    {
      ghost var before := bucket;
      var created := Create(f);
      if created.Failed? {
        return Failed;
      }
      ghost var between := bucket;
      var ok := VerifyObject(f, created.value);
      DescendsTransitively(before, between, bucket);
      r := if ok then created else Failed;
    }

    /** The first `i` files have been read back behind these events; what existed at the start
        was live then. */
    ghost predicate ReadBack(files: seq<LocalFile>, gens: seq<nat>, i: nat, start: Bucket, events: seq<Event>)
      requires i <= |files| == |gens|
      reads this
    {
      && Descends(start, bucket)
      && trace == events + Readbacks(files[..i], gens[..i]) && CreatesNothing(Readbacks(files[..i], gens[..i]))
      && KnownAreLive(start, files[..i], gens[..i])
      && (Alone() ==> bucket == start) && (Calm() ==> AllStored(bucket, files[..i], gens[..i]))
    }

    method VerifyNext(files: seq<LocalFile>, gens: seq<nat>, i: nat, ghost start: Bucket, ghost events: seq<Event>)
      returns (ok: bool)
      requires Valid() && i < |files| == |gens| && ReadBack(files, gens, i, start, events)
      modifies this`bucket, this`tick, this`trace
      ensures Valid() && Descends(start, bucket) && (Alone() ==> bucket == start)
      ensures events <= trace && CreatesNothing(trace[|events|..])
      ensures ok ==> ReadBack(files, gens, i + 1, start, events)
      ensures Calm() ==> (ok <==> Stored(start, files[i], gens[i]))
    {
      ghost var before, done := bucket, Readbacks(files[..i], gens[..i]);
      ok := VerifyObject(files[i], gens[i]);
      DescendsTransitively(start, before, bucket);
      assert trace[|events|..] == done + trace[|events + done|..];
      if ok {
        ReadbacksGrow(files, gens, i);
        Associates(events, done, [Read(files[i].name, gens[i], files[i].content)]);
      }
    }

    /** Reads files back one by one. What was read at a generation that existed at the start
        was live there all along. */
    method VerifyObjects(files: seq<LocalFile>, gens: seq<nat>) returns (ok: bool)
      requires Valid() && |gens| == |files|
      modifies this`bucket, this`tick, this`trace
      ensures Valid() && Descends(old(bucket), bucket)
      ensures old(trace) <= trace && CreatesNothing(trace[|old(trace)|..])
      ensures ok ==> trace == old(trace) + Readbacks(files, gens)
      ensures ok ==> KnownAreLive(old(bucket), files, gens)
      ensures Alone() ==> bucket == old(bucket)
      ensures Calm() ==> (ok <==> AllStored(bucket, files, gens))
    {
      ghost var start, events := bucket, trace;
      for i := 0 to |files|
        invariant Valid() && ReadBack(files, gens, i, start, events)
      {
        ok := VerifyNext(files, gens, i, start, events);
        if !ok {
          return;
        }
      }
      assert files[..|files|] == files && gens[..|gens|] == gens;
      ok := true;
    }

    /** The first files have been created behind these events, and if `empty`, the destination
        holds nothing else. */
    ghost predicate Uploaded(files: seq<LocalFile>, gens: seq<nat>, events: seq<Event>, empty: bool)
      reads this
    {
      && |gens| <= |files| && DataOnly(trace)
      && var first := files[..|gens|];
      && trace == events + Uploads(first, gens) && AllRecorded(bucket, first, gens)
      && (empty ==> Calm() && bucket.live.Keys == Names(first) && AllStored(bucket, first, gens))
    }

    method UploadNext(files: seq<LocalFile>, gens: seq<nat>, ghost events: seq<Event>, ghost empty: bool)
      returns (r: Outcome<nat>)
      requires Valid() && DistinctFiles(files) && Publishable(files) && |gens| < |files|
      requires Uploaded(files, gens, events, empty)
      modifies this`bucket, this`tick, this`trace
      ensures Valid() && DataOnly(trace) && (Alone() ==> Keeps(old(bucket), bucket))
      ensures r.Done? ==> Uploaded(files, gens + [r.value], events, empty)
      ensures empty ==> r.Done?
    {
      ghost var before := bucket;
      var i := |gens|;
      if empty {
        NotYetStored(bucket, files, i);
      }
      r := Upload(files[i]);
      if r.Done? {
        UploadsGrow(events, files, gens, i, r.value);
        RecordingGrows(before, bucket, files, gens, i, r.value);
        if empty {
          StoringGrows(before, files, gens, i, r.value);
        }
      }
    }

    /** Creates all files in order. */
    method UploadAll(files: seq<LocalFile>) returns (r: Outcome<seq<nat>>)
      requires Valid() && DistinctFiles(files) && Publishable(files) && DataOnly(trace)
      modifies this`bucket, this`tick, this`trace
      ensures Valid() && DataOnly(trace) && (Alone() ==> Keeps(old(bucket), bucket))
      ensures r.Done? ==>
                && |r.value| == |files| && trace == old(trace) + Uploads(files, r.value)
                && AllRecorded(bucket, files, r.value)
      ensures Calm() && old(bucket).live == map[] ==>
                r.Done? && bucket.live.Keys == Names(files) && AllStored(bucket, files, r.value)
    {
      ghost var events, empty := trace, Calm() && bucket.live == map[];
      var gens := [];
      for i := 0 to |files|
        invariant Valid() && |gens| == i && Uploaded(files, gens, events, empty)
        invariant Alone() ==> Keeps(old(bucket), bucket)
      {
        ghost var before := bucket;
        var created := UploadNext(files, gens, events, empty);
        if Alone() {
          KeepsTransitively(old(bucket), before, bucket);
        }
        if created.Failed? {
          return Failed;
        }
        gens := gens + [created.value];
      }
      assert files[..|files|] == files;
      r := Done(gens);
    }

    /** Lists the destination and reads everything back: what is left of both phases once the
        objects are there. */
    method Inspect(files: seq<LocalFile>, gens: seq<nat>) returns (ok: bool)
      requires Valid() && |gens| == |files|
      modifies this`bucket, this`tick, this`trace
      ensures Valid() && Descends(old(bucket), bucket)
      ensures old(trace) <= trace && CreatesNothing(trace[|old(trace)|..])
      ensures ok ==> trace == old(trace) + Inspection(files, gens)
      ensures ok ==> KnownAreLive(old(bucket), files, gens)
      ensures Alone() ==> bucket == old(bucket)
      ensures Calm() ==> (ok <==> bucket.live.Keys == Names(files) && AllStored(bucket, files, gens))
    {
      ghost var start, seen := bucket, trace;
      var names := ListObjects();
      if names.Failed? || names.value != Names(files) {
        return false;
      }
      ghost var listed, heard := bucket, trace;
      ok := VerifyObjects(files, gens);
      DescendsTransitively(start, listed, bucket);
      assert trace[|seen|..] == heard[|seen|..] + trace[|heard|..];
    }

    /** The commit point: the marker is created and read back. */
    method CreateMarker(marker: LocalFile) returns (r: Outcome<nat>, ghost atCommit: Bucket)
      requires Valid() && DataOnly(trace)
      modifies this`bucket, this`tick, this`trace
      ensures Valid() && CreateOnly(trace) && MarkerFollows(trace, old(trace))
      ensures Alone() ==> Keeps(old(bucket), bucket)
      ensures r.Done? ==>
                && trace == old(trace) + UploadEvents(marker, r.value)
                && ValidBucket(atCommit) && Stored(atCommit, marker, r.value)
                && Descends(old(bucket), atCommit) && Descends(atCommit, bucket)
      ensures Calm() && marker.name !in old(bucket).live ==>
                r.Done? && bucket == Written(old(bucket), marker.name, Version(marker.content, true))
    {
      ghost var before := trace;
      r := Create(marker);
      atCommit := bucket;
      ghost var committed := trace;
      MarkerFollowsAtCommit(trace, before);
      if r.Failed? {
        return;
      }
      var ok := VerifyObject(marker, r.value);
      MarkerStillFollows(committed, trace, before);
      if !ok {
        r := Failed;
      }
    }

    /** The inspection after the commit point. */
    method InspectAgain(all: seq<LocalFile>, gens: seq<nat>, ghost before: seq<Event>) returns (ok: bool)
      requires Valid() && |gens| == |all| && MarkerFollows(trace, before) && CreateOnly(trace)
      modifies this`bucket, this`tick, this`trace
      ensures Valid() && Descends(old(bucket), bucket) && MarkerFollows(trace, before) && CreateOnly(trace)
      ensures ok ==> trace == old(trace) + Inspection(all, gens) && KnownAreLive(old(bucket), all, gens)
      ensures Alone() ==> bucket == old(bucket)
      ensures Calm() && bucket.live.Keys == Names(all) && AllStored(bucket, all, gens) ==> ok
    {
      ghost var seen := trace;
      ok := Inspect(all, gens);
      MarkerStillFollows(seen, trace, before);
    }

    /** Creates the marker, then checks everything once more. */
    method Commit(files: seq<LocalFile>, gens: seq<nat>, marker: LocalFile)
      returns (r: Outcome<Evidence>, ghost atCommit: Bucket)
      requires Valid() && DistinctFiles(files) && Publishable(files) && marker.name == COMPLETION_MARKER
      requires |gens| == |files| && AllRecorded(bucket, files, gens) && DataOnly(trace)
      modifies this`bucket, this`tick, this`trace
      ensures Valid() && CreateOnly(trace) && MarkerFollows(trace, old(trace))
      ensures Alone() ==> Keeps(old(bucket), bucket)
      ensures r.Done? ==>
                && r.value.generations == gens
                && trace == old(trace) + UploadEvents(marker, r.value.markerGeneration)
                            + Inspection(files + [marker], gens + [r.value.markerGeneration])
                && AllStored(atCommit, files + [marker], gens + [r.value.markerGeneration])
                && Descends(atCommit, bucket)
      ensures Calm() && old(bucket).live.Keys == Names(files) && AllStored(old(bucket), files, gens) ==> r.Done?
    {
      ghost var before, events := bucket, trace;
      var created;
      created, atCommit := CreateMarker(marker);
      if created.Failed? {
        return Failed, atCommit;
      }
      ghost var committed := bucket;
      MarkerIsLast(before, bucket, files, gens, marker, created.value);
      var ok := InspectAgain(files + [marker], gens + [created.value], events);
      if !ok {
        return Failed, atCommit;
      }
      DescendsTransitively(atCommit, committed, bucket);
      StoredAtCommit(before, atCommit, committed, files, gens, marker, created.value);
      r := Done(Evidence(gens, created.value));
    }

    /** The destination must be empty. */
    method FindEmpty() returns (empty: bool)
      requires Valid()
      modifies this`bucket, this`tick, this`trace
      ensures Valid() && (empty ==> bucket.live == map[])
      ensures trace == if empty then old(trace) + [Listed({})] else trace
      ensures trace == old(trace) || exists names :: trace == old(trace) + [Listed(names)]
      ensures Alone() ==> bucket == old(bucket)
      ensures Calm() ==> (empty <==> bucket.live == map[])
    {
      var existing := ListObjects();
      empty := existing.Done? && existing.value == {};
      assert bucket.live.Keys == {} <==> bucket.live == map[];
    }

    /** Everything before the commit point. */
    method Stage(files: seq<LocalFile>) returns (r: Outcome<seq<nat>>)
      requires Valid() && DistinctFiles(files) && trace == []
      modifies this`bucket, this`tick, this`trace
      ensures Valid() && DataOnly(trace) && (Alone() ==> Keeps(old(bucket), bucket))
      ensures r.Done? ==>
                && |r.value| == |files| && trace == BeforeCommit(files, r.value) && AllRecorded(bucket, files, r.value)
                && Publishable(files)
      ensures Calm() ==> (r.Done? <==> Publishable(files) && old(bucket).live == map[])
      ensures Calm() && r.Done? ==> bucket.live.Keys == Names(files) && AllStored(bucket, files, r.value)
    {
      if !Publishable(files) {
        return Failed;
      }
      var empty := FindEmpty();
      if !empty {
        return Failed;
      }
      r := StageFiles(files);
    }

    /** The data files are created, then listed and read back. */
    method StageFiles(files: seq<LocalFile>) returns (r: Outcome<seq<nat>>)
      requires Valid() && DistinctFiles(files) && Publishable(files) && trace == [Listed({})]
      modifies this`bucket, this`tick, this`trace
      ensures Valid() && DataOnly(trace) && (Alone() ==> Keeps(old(bucket), bucket))
      ensures r.Done? ==>
                |r.value| == |files| && trace == BeforeCommit(files, r.value) && AllRecorded(bucket, files, r.value)
      ensures Calm() && old(bucket).live == map[] ==>
                r.Done? && bucket.live.Keys == Names(files) && AllStored(bucket, files, r.value)
    {
      r := UploadAll(files);
      if r.Failed? {
        return;
      }
      ghost var uploads, before := trace, bucket;
      var ok := Inspect(files, r.value);
      DataStaysData(uploads, trace);
      RecordingStays(before, bucket, files, r.value);
      if !ok {
        r := Failed;
      }
    }

    /** `completion` writes the marker from the recorded generations. `atCommit` is the bucket
        right after the marker appeared. */
    method Publish(files: seq<LocalFile>, completion: seq<nat> -> Content)
      returns (r: Outcome<Evidence>, ghost atCommit: Bucket)
      requires Valid() && DistinctFiles(files) && trace == []
      modifies this`bucket, this`tick, this`trace
      ensures Valid() && CreateOnly(trace) && CommitJustified(trace, files)
      // Whatever fails, what was live stays live, unless others replace or delete it.
      ensures Alone() ==> Keeps(old(bucket), bucket)
      ensures r.Done? ==>
                var gens := r.value.generations;
                && |gens| == |files|
                && var marker := LocalFile(COMPLETION_MARKER, completion(gens));
                && trace == BeforeCommit(files, gens) + UploadEvents(marker, r.value.markerGeneration)
                            + Inspection(files + [marker], gens + [r.value.markerGeneration])
                && AllStored(atCommit, files + [marker], gens + [r.value.markerGeneration])
                && Descends(atCommit, bucket)
      // Undisturbed, it succeeds exactly for a directory with a manifest that leaves the marker's name
      // free, and an empty destination.
      ensures Calm() ==>
                (r.Done? <==> (exists i :: 0 <= i < |files| && files[i].name == "manifest.json")
                              && (forall i :: 0 <= i < |files| ==>
                                    files[i].name != "_control/publication_manifest.json")
                              && old(bucket).live == map[])
    {
      atCommit := bucket;
      var staged := Stage(files);
      NothingToJustify(trace, files);
      if staged.Failed? {
        return Failed, atCommit;
      }
      ghost var before := bucket;
      r, atCommit := Commit(files, staged.value, LocalFile(COMPLETION_MARKER, completion(staged.value)));
      FollowingJustifies(trace, files, staged.value);
      if Alone() {
        KeepsTransitively(old(bucket), before, bucket);
      }
    }
  }
}
