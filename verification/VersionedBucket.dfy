/** A bucket with object versioning, seen by one client among others.

    Contents are known by size and checksum. Overwriting keeps the previous generation
    readable, generations are never reused, and other writers may overwrite or delete live
    objects between any two operations of the client (`Act`).
 */
module VersionedBucket {

  datatype Option<T> = None | Some(value: T)

  datatype Content = Content(size: nat, digest: string)

  /** Composite objects report no checksum. */
  datatype Version = Version(content: Content, reportsDigest: bool)

  datatype Metadata = Metadata(generation: nat, size: nat, digest: Option<string>)

  datatype Bucket = Bucket(versions: map<(string, nat), Version>, live: map<string, nat>, next: nat)

  datatype Act = Overwrite(name: string, version: Version) | Remove(name: string)

  /** One disturbed operation may stop before or after it takes effect, by an exception or by
      the death of the process. */
  datatype Fault = NoFault | RaiseBefore | RaiseAfter | KillBefore | KillAfter

  /** What happens around one operation: the acts of others before it, and its own fault. */
  datatype Weather = Weather(acts: seq<Act>, fault: Fault)

  predicate ValidBucket(b: Bucket) {
    && (forall k :: k in b.versions ==> k.1 < b.next)
    && (forall n :: n in b.live ==> (n, b.live[n]) in b.versions)
  }

  function Written(b: Bucket, name: string, version: Version): Bucket {
    Bucket(b.versions[(name, b.next) := version], b.live[name := b.next], b.next + 1)
  }

  function LiveVersion(b: Bucket, name: string): Version
    requires ValidBucket(b) && name in b.live
  {
    b.versions[(name, b.live[name])]
  }

  function Describe(b: Bucket, name: string): Metadata
    requires ValidBucket(b) && name in b.live
  {
    var v := LiveVersion(b, name);
    Metadata(b.live[name], v.content.size, if v.reportsDigest then Some(v.content.digest) else None)
  }

  /** Metadata that shows exactly this content, checksum included. */
  predicate Shows(m: Metadata, c: Content) {
    m.size == c.size && m.digest == Some(c.digest)
  }

  function Perform(b: Bucket, a: Act): Bucket {
    match a
    case Overwrite(name, version) => Written(b, name, version)
    case Remove(name) => b.(live := b.live - {name})
  }

  function PerformAll(b: Bucket, acts: seq<Act>): Bucket
    decreases |acts|
  {
    if acts == [] then b else PerformAll(Perform(b, acts[0]), acts[1..])
  }

  /** Every generation ever written keeps its content. */
  predicate Grown(b: Bucket, b': Bucket) {
    b.next <= b'.next && forall k :: k in b.versions ==> k in b'.versions && b'.versions[k] == b.versions[k]
  }

  lemma {:induction false} OthersOnlyAddVersions(b: Bucket, acts: seq<Act>)
    requires ValidBucket(b)
    ensures ValidBucket(PerformAll(b, acts)) && Grown(b, PerformAll(b, acts))
    decreases |acts|
  {
    if acts == [] {
    } else {
      OthersOnlyAddVersions(Perform(b, acts[0]), acts[1..]);
    }
  }

  /** A generation that has been replaced is never live again, whatever other writers do. */
  lemma {:induction false} ReplacedStaysReplaced(b: Bucket, acts: seq<Act>, name: string, generation: nat)
    requires ValidBucket(b) && generation < b.next && !LiveAt(b, name, generation)
    ensures !LiveAt(PerformAll(b, acts), name, generation)
    decreases |acts|
  {
    if acts == [] {
    } else {
      ReplacedStaysReplaced(Perform(b, acts[0]), acts[1..], name, generation);
    }
  }

  /** This generation is the live one under this name. */
  predicate LiveAt(b: Bucket, name: string, generation: nat) {
    name in b.live && b.live[name] == generation
  }

  /** `b'` comes later: it keeps all versions, and what is live in it and existed in `b` was
      already live there. */
  ghost predicate Descends(b: Bucket, b': Bucket) {
    && Grown(b, b')
    && forall name, generation: nat ::
         generation < b.next && LiveAt(b', name, generation) ==> LiveAt(b, name, generation)
  }

  lemma DescendsTransitively(a: Bucket, b: Bucket, c: Bucket)
    requires Descends(a, b) && Descends(b, c)
    ensures Descends(a, c)
  {
    forall name, generation: nat | generation < a.next && LiveAt(c, name, generation)
      ensures LiveAt(a, name, generation)
    {
      assert LiveAt(b, name, generation);
    }
  }

  lemma OthersDescend(b: Bucket, acts: seq<Act>)
    requires ValidBucket(b)
    ensures ValidBucket(PerformAll(b, acts)) && Descends(b, PerformAll(b, acts))
  {
    OthersOnlyAddVersions(b, acts);
    var b' := PerformAll(b, acts);
    forall name, generation: nat | generation < b.next && LiveAt(b', name, generation)
      ensures LiveAt(b, name, generation)
    {
      if !LiveAt(b, name, generation) {
        ReplacedStaysReplaced(b, acts, name, generation);
      }
    }
  }
}
