/** The content-addressed byte store: staging, live and quarantine (src/storage/local_store.py). */
module LocalStore {
  import opened Wrappers

  type Team = nat
  type Byte = x: int | 0 <= x < 256
  type Blob = seq<Byte>

  /** SHA-256 as an injective function: a digest is a term that carries its preimage. */
  datatype Digest = Sha256(preimage: Blob)

  function DigestOf(bytes: Blob): Digest {
    Sha256(bytes)
  }

  /** A physical location: objects/<team>/.../<digest>, and its twin under quarantine/. */
  datatype Coord = Coord(team: Team, digest: Digest)

  /** What a successful promotion hands back to its caller. */
  datatype Stat = Stat(team: Team, digest: Digest, size: nat) {
    function At(): Coord { Coord(team, digest) }
  }

  datatype Handle = Handle(team: Team, digest: Digest) | Unparsable(text: string)

  datatype Chunk = Bytes(bytes: Blob) | NotBytes

  datatype StoreError =
    | ChunkInvalid
    | BudgetSize
    | Empty
    | DigestMismatch
    | Collision
    | Missing
    | PathRejected
    | TeamMismatch

  /** The two durable places; staging is private to one promotion. */
  datatype Store = Store(live: map<Coord, Blob>, quarantine: map<Coord, Blob>)

  /** Every file's bytes hash to the digest in its path. */
  ghost predicate BytesMatch(s: Store) {
    && (forall c | c in s.live :: DigestOf(s.live[c]) == c.digest)
    && (forall c | c in s.quarantine :: DigestOf(s.quarantine[c]) == c.digest)
  }

  // ---------- the locked steps as functions of the two maps ----------

  /** Bytes are moved in unless the target exists, which must then be intact. */
  function Promote(s: Store, c: Coord, staged: Blob): Result<Store, StoreError> {
    if c in s.live then
      if DigestOf(s.live[c]) != c.digest || |s.live[c]| != |staged| then Failure(Collision) else Success(s)
    else
      Success(s.(live := s.live[c := staged]))
  }

  function Quarantine(s: Store, c: Coord): Store {
    if c in s.live then Store(s.live - {c}, s.quarantine[c := s.live[c]]) else s
  }

  function Restore(s: Store, c: Coord): Store {
    if c in s.live then Store(s.live, s.quarantine - {c})
    else if c in s.quarantine then Store(s.live[c := s.quarantine[c]], s.quarantine - {c})
    else s
  }

  function Destroy(s: Store, c: Coord): Store {
    s.(quarantine := s.quarantine - {c})
  }

  /** Recoverable bytes: those a reader finds, and those a restore would bring back. */
  predicate Holds(s: Store, c: Coord) {
    c in s.live || c in s.quarantine
  }

  /** No locked step can make a file disagree with its name, and only Destroy can lose bytes:
      quarantining and restoring move them, even when both places hold a copy. */
  lemma StepsKeepBytes(s: Store, c: Coord, staged: Blob)
    requires BytesMatch(s)
    requires c.digest == DigestOf(staged)
    ensures Promote(s, c, staged).Success? && BytesMatch(Promote(s, c, staged).value)
    ensures Promote(s, c, staged).value.live.Keys == s.live.Keys + {c}
    ensures BytesMatch(Quarantine(s, c)) && BytesMatch(Restore(s, c)) && BytesMatch(Destroy(s, c))
    ensures forall k :: Holds(Quarantine(s, c), k) == Holds(s, k)
    ensures forall k :: Holds(Restore(s, c), k) == Holds(s, k)
    ensures forall k :: Holds(Destroy(s, c), k) == (k in s.live || (k in s.quarantine && k != c))
    ensures Holds(s, c) ==> Restore(Quarantine(s, c), c).live == s.live[c := staged]
  {
    assert c in s.live ==> s.live[c] == staged;
    assert c in s.quarantine ==> s.quarantine[c] == staged;
  }

  // ---------- reading a bounded stream ----------

  /** The outcome of draining a chunk stream: the first offence wins, blank chunks are skipped. */
  function Drain(chunks: seq<Chunk>, observed: nat, max: nat): Result<Blob, StoreError> {
    if chunks == [] then Success([])
    else if chunks[0].NotBytes? then Failure(ChunkInvalid)
    else if chunks[0].bytes != [] && observed + |chunks[0].bytes| > max then Failure(BudgetSize)
    else
      match Drain(chunks[1..], observed + |chunks[0].bytes|, max)
      case Failure(e) => Failure(e)
      case Success(rest) => Success(chunks[0].bytes + rest)
  }

  function Joined(chunks: seq<Chunk>): (b: Blob) {
    if chunks == [] then [] else (if chunks[0].Bytes? then chunks[0].bytes else []) + Joined(chunks[1..])
  }

  /** A stream is accepted exactly when every chunk is bytes and the whole fits the budget,
      and then nothing of it is lost or reordered. */
  lemma {:induction false} DrainAccepts(chunks: seq<Chunk>, observed: nat, max: nat)
    requires observed <= max
    ensures Drain(chunks, observed, max).Success?
       <==> (forall i | 0 <= i < |chunks| :: chunks[i].Bytes?) && observed + |Joined(chunks)| <= max
    ensures Drain(chunks, observed, max).Success? ==> Drain(chunks, observed, max).value == Joined(chunks)
  {
    if chunks != [] && chunks[0].Bytes? && observed + |chunks[0].bytes| <= max {
      DrainAccepts(chunks[1..], observed + |chunks[0].bytes|, max);
      assert forall i | 1 <= i < |chunks| :: chunks[i] == chunks[1..][i - 1];
      if forall i | 0 <= i < |chunks[1..]| :: chunks[1..][i].Bytes? {
        assert forall i | 0 <= i < |chunks| :: chunks[i].Bytes?;
      }
    }
  }

  /** What promoting a stream means: drain, check, then one atomic promotion. */
  function PromoteSpec(s: Store, chunks: seq<Chunk>, team: Team, forUpload: bool, expected: Option<Digest>, max: nat)
    : (Store, Result<Stat, StoreError>)
  {
    match Drain(chunks, 0, max)
    case Failure(e) => (s, Failure(e))
    case Success(blob) =>
      var d := DigestOf(blob);
      if blob == [] && forUpload then (s, Failure(Empty))
      else if expected.Some? && expected.value != d then (s, Failure(DigestMismatch))
      else
        match Promote(s, Coord(team, d), blob)
        case Failure(e) => (s, Failure(e))
        case Success(s') => (s', Success(Stat(team, d, |blob|)))
  }

  /** The promise a caller relies on: whatever a promotion acknowledges can be read back verified,
      byte for byte, at the acknowledged digest, and nothing else in the store moved. */
  lemma PromotedBytesAreReadable(s: Store, chunks: seq<Chunk>, team: Team, forUpload: bool,
                                 expected: Option<Digest>, max: nat)
    requires BytesMatch(s)
    ensures var (s', r) := PromoteSpec(s, chunks, team, forUpload, expected, max);
      && BytesMatch(s')
      && s'.quarantine == s.quarantine
      && (r.Failure? ==> s' == s)
      && (r.Success? ==>
            && r.value.digest == DigestOf(Joined(chunks))
            && r.value.size == |Joined(chunks)|
            && s'.live == s.live[r.value.At() := Joined(chunks)])
  {
    hide Drain, Joined;
    DrainAccepts(chunks, 0, max);
    var (s', r) := PromoteSpec(s, chunks, team, forUpload, expected, max);
    if Drain(chunks, 0, max).Success? {
      var blob := Joined(chunks);
      StepsKeepBytes(s, Coord(team, DigestOf(blob)), blob);
    }
  }

  predicate AllBytes(chunks: seq<Chunk>) {
    forall i | 0 <= i < |chunks| :: chunks[i].Bytes?
  }

  /** The first chunk that is not bytes arrives while everything before it fits the budget. */
  predicate SpoiltAt(chunks: seq<Chunk>, k: nat, room: int) {
    k < |chunks| && chunks[k].NotBytes? && AllBytes(chunks[..k]) && |Joined(chunks[..k])| <= room
  }

  /** The budget is exceeded by chunks that are all bytes. */
  predicate OverflowsAt(chunks: seq<Chunk>, k: nat, room: int) {
    k <= |chunks| && AllBytes(chunks[..k]) && |Joined(chunks[..k])| > room
  }

  lemma JoinedHead(chunks: seq<Chunk>, k: nat)
    requires 0 < k <= |chunks| && chunks[0].Bytes?
    ensures Joined(chunks[..k]) == chunks[0].bytes + Joined(chunks[1..][..k - 1])
    ensures AllBytes(chunks[..k]) <==> AllBytes(chunks[1..][..k - 1])
  {
    var head, tail := chunks[..k], chunks[1..][..k - 1];
    assert head[1..] == tail && head == [chunks[0]] + tail;
    assert forall i | 0 <= i < |tail| :: tail[i] == head[1..][i];
  }

  lemma {:induction false} SpoiltIsInvalid(chunks: seq<Chunk>, k: nat, observed: nat, max: nat)
    requires observed <= max && SpoiltAt(chunks, k, max - observed)
    ensures Drain(chunks, observed, max) == Failure(ChunkInvalid)
    decreases k
  {
    if k > 0 {
      assert chunks[..k][0].Bytes?;
      JoinedHead(chunks, k);
      SpoiltIsInvalid(chunks[1..], k - 1, observed + |chunks[0].bytes|, max);
    }
  }

  lemma {:induction false} OverflowIsBudget(chunks: seq<Chunk>, k: nat, observed: nat, max: nat)
    requires observed <= max && OverflowsAt(chunks, k, max - observed)
    ensures Drain(chunks, observed, max) == Failure(BudgetSize)
    decreases k
  {
    assert k > 0 by { assert Joined(chunks[..0]) == []; }
    assert chunks[..k][0].Bytes?;
    JoinedHead(chunks, k);
    if observed + |chunks[0].bytes| <= max {
      OverflowIsBudget(chunks[1..], k - 1, observed + |chunks[0].bytes|, max);
    }
  }

  lemma {:induction false} Offence(chunks: seq<Chunk>, observed: nat, max: nat) returns (k: nat)
    requires observed <= max && Drain(chunks, observed, max).Failure?
    ensures SpoiltAt(chunks, k, max - observed) || OverflowsAt(chunks, k, max - observed)
    decreases |chunks|
  {
    if chunks[0].NotBytes? {
      k := 0;
      assert Joined(chunks[..0]) == [];
    } else if observed + |chunks[0].bytes| > max {
      k := 1;
      JoinedHead(chunks, 1);
      assert Joined(chunks[1..][..0]) == [];
    } else {
      var j := Offence(chunks[1..], observed + |chunks[0].bytes|, max);
      k := j + 1;
      JoinedHead(chunks, k);
    }
  }

  /** Which offence a refused stream is refused for. */
  lemma DrainRefusesExactly(chunks: seq<Chunk>, max: nat)
    ensures Drain(chunks, 0, max) == Failure(ChunkInvalid) <==> exists k: nat :: SpoiltAt(chunks, k, max)
    ensures Drain(chunks, 0, max) == Failure(BudgetSize) <==> exists k: nat :: OverflowsAt(chunks, k, max)
    ensures Drain(chunks, 0, max).Failure? ==> Drain(chunks, 0, max).error in {ChunkInvalid, BudgetSize}
  {
    hide Drain, SpoiltAt, OverflowsAt;
    forall k: nat | SpoiltAt(chunks, k, max)
      ensures Drain(chunks, 0, max) == Failure(ChunkInvalid)
    {
      SpoiltIsInvalid(chunks, k, 0, max);
    }
    forall k: nat | OverflowsAt(chunks, k, max)
      ensures Drain(chunks, 0, max) == Failure(BudgetSize)
    {
      OverflowIsBudget(chunks, k, 0, max);
    }
    if Drain(chunks, 0, max).Failure? {
      var k := Offence(chunks, 0, max);
    }
  }

  /** When a promotion succeeds, and what each refusal means, in terms of the stream's chunks and of the
      whole they join to. In a store whose files match their names there is no other refusal. */
  lemma {:induction false} PromotionExactly(s: Store, chunks: seq<Chunk>, team: Team, forUpload: bool, expected: Option<Digest>, max: nat)
    requires BytesMatch(s)
    ensures var r := PromoteSpec(s, chunks, team, forUpload, expected, max).1;
      var whole := Joined(chunks);
      var received := AllBytes(chunks) && |whole| <= max;
      && (r.Success? <==> received && (forUpload ==> whole != []) && (expected.Some? ==> expected.value == DigestOf(whole)))
      && (r == Failure(ChunkInvalid) <==> exists k: nat :: SpoiltAt(chunks, k, max))
      && (r == Failure(BudgetSize) <==> exists k: nat :: OverflowsAt(chunks, k, max))
      && (r == Failure(Empty) <==> received && forUpload && whole == [])
      && (r == Failure(DigestMismatch) <==> received && !(forUpload && whole == []) && expected.Some? && expected.value != DigestOf(whole))
      && (r.Failure? ==> r.error in {ChunkInvalid, BudgetSize, Empty, DigestMismatch})
  {
    DrainAccepts(chunks, 0, max);
    DrainRefusesExactly(chunks, max);
    if Drain(chunks, 0, max).Success? {
      StepsKeepBytes(s, Coord(team, DigestOf(Joined(chunks))), Joined(chunks));
    }
    hide Drain, Joined, SpoiltAt, OverflowsAt;
  }

  class LocalObjectStore {
    const maxObjectBytes: nat
    var staging: map<nat, Blob>
    var live: map<Coord, Blob>
    var quarantine: map<Coord, Blob>

    constructor (maxObjectBytes: nat)
      ensures this.maxObjectBytes == maxObjectBytes
      ensures View() == Store(map[], map[]) && staging == map[]
    {
      this.maxObjectBytes := maxObjectBytes;
      staging, live, quarantine := map[], map[], map[];
    }

    function View(): Store
      reads this
    {
      Store(live, quarantine)
    }

    /** _promote_staging_sync: bytes already present must be the same bytes, else the staged file is renamed. */
    method PromoteStaged(c: Coord, temporary: nat, observed: nat) returns (r: Result<Stat, StoreError>)
      requires temporary in staging && c.digest == DigestOf(staging[temporary]) && observed == |staging[temporary]|
      modifies this`live
      ensures match Promote(old(View()), c, staging[temporary])
              case Failure(e) => View() == old(View()) && r == Failure(e)
              case Success(s) => View() == s && r == Success(Stat(c.team, c.digest, observed))
    {
      if c in live {
        if DigestOf(live[c]) != c.digest || |live[c]| != observed {
          return Failure(Collision);
        }
      } else {
        live := live[c := staging[temporary]];
      }
      return Success(Stat(c.team, c.digest, observed));
    }

    /** The receiving loop: chunks go to the staged file until one is not bytes or the budget is exceeded. */
    method Receive(chunks: seq<Chunk>, temporary: nat) returns (r: Result<nat, StoreError>)
      requires temporary in staging && staging[temporary] == []
      modifies this`staging
      ensures staging.Keys == old(staging).Keys && staging - {temporary} == old(staging) - {temporary}
      ensures match Drain(chunks, 0, maxObjectBytes)
              case Failure(e) => r == Failure(e)
              case Success(blob) => r == Success(|blob|) && staging[temporary] == blob
    {
      var observed := 0;
      var hashed: Blob := [];
      var i := 0;
      assert chunks[0..] == chunks;
      assert forall rest: Blob :: hashed + rest == rest;
      while i < |chunks|
        invariant 0 <= i <= |chunks|
        invariant staging == old(staging)[temporary := hashed] && observed == |hashed|
        invariant match Drain(chunks[i..], observed, maxObjectBytes)
                  case Failure(e) => Drain(chunks, 0, maxObjectBytes) == Failure(e)
                  case Success(rest) => Drain(chunks, 0, maxObjectBytes) == Success(hashed + rest)
      {
        if chunks[i].NotBytes? {
          return Failure(ChunkInvalid);
        }
        assert chunks[i..][1..] == chunks[i + 1..];
        if chunks[i].bytes != [] {
          observed := observed + |chunks[i].bytes|;
          if observed > maxObjectBytes {
            return Failure(BudgetSize);
          }
          assert forall rest: Blob :: hashed + (chunks[i].bytes + rest) == hashed + chunks[i].bytes + rest;
          hashed := hashed + chunks[i].bytes;
          staging := staging[temporary := hashed];
        }
        assert chunks[i].bytes == [] ==> forall rest: Blob :: chunks[i].bytes + rest == rest;
        i := i + 1;
      }
      assert hashed + [] == hashed;
      return Success(observed);
    }

    /** promote_stream: streams into a fresh staging file, then promotes it; the staging file never outlives
        the call. */
    method PromoteStream(chunks: seq<Chunk>, team: Team, forUpload: bool, expected: Option<Digest>, temporary: nat)
      returns (r: Result<Stat, StoreError>)
      requires temporary !in staging
      modifies this
      ensures (View(), r) == PromoteSpec(old(View()), chunks, team, forUpload, expected, maxObjectBytes)
      ensures staging == old(staging)
    {
      hide Drain;
      staging := staging[temporary := []];
      assert staging - {temporary} == old(staging);
      var received := Receive(chunks, temporary);
      if received.Failure? {
        r := Failure(received.error);
      } else if received.value == 0 && forUpload {
        r := Failure(Empty);
      } else if expected.Some? && expected.value != DigestOf(staging[temporary]) {
        r := Failure(DigestMismatch);
      } else {
        r := PromoteStaged(Coord(team, DigestOf(staging[temporary])), temporary, received.value);
      }
      staging := staging - {temporary};
    }

    method QuarantineObject(c: Coord) returns (moved: bool)
      modifies this`live, this`quarantine
      ensures View() == Quarantine(old(View()), c)
      ensures moved <==> c in old(live)
    {
      if c !in live {
        return false;
      }
      live, quarantine := live - {c}, quarantine[c := live[c]];
      moved := true;
    }

    method RestoreQuarantined(c: Coord) returns (present: bool)
      modifies this`live, this`quarantine
      ensures View() == Restore(old(View()), c)
      ensures present <==> c in live
    {
      if c in live {
        if c in quarantine {
          quarantine := quarantine - {c};
        }
        return true;
      }
      if c !in quarantine {
        return false;
      }
      live, quarantine := live[c := quarantine[c]], quarantine - {c};
      present := true;
    }

    method DestroyQuarantined(c: Coord)
      modifies this`quarantine
      ensures View() == Destroy(old(View()), c)
    {
      quarantine := quarantine - {c};
    }

    method ReadVerified(team: Team, handle: Handle) returns (r: Result<Blob, StoreError>)
      ensures r.Success? <==>
        && handle.Handle? && handle.team == team
        && Coord(team, handle.digest) in live && DigestOf(live[Coord(team, handle.digest)]) == handle.digest
      ensures r.Success? ==> DigestOf(r.value) == handle.digest
      ensures r == Failure(PathRejected) <==> handle.Unparsable?
      ensures r == Failure(TeamMismatch) <==> handle.Handle? && handle.team != team
      ensures r == Failure(DigestMismatch) <==>
        handle.Handle? && handle.team == team && Coord(team, handle.digest) in live && DigestOf(live[Coord(team, handle.digest)]) != handle.digest
      ensures r == Failure(Missing) <==> handle.Handle? && handle.team == team && Coord(team, handle.digest) !in live
    {
      if handle.Unparsable? {
        return Failure(PathRejected);
      }
      if handle.team != team {
        return Failure(TeamMismatch);
      }
      var c := Coord(team, handle.digest);
      if c !in live {
        return Failure(Missing);
      }
      if DigestOf(live[c]) != handle.digest {
        return Failure(DigestMismatch);
      }
      r := Success(live[c]);
    }
  }
}
