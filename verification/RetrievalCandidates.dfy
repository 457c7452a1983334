/** The serving fence of retrieval candidates (src/persistence/retrieval_access.py:121-165, 247-280). */
module RetrievalCandidates {
  import opened Wrappers

  /** One submitted candidate: not a mapping, or its three values where they are strings. */
  datatype Candidate = NotMapping | Mapping(vector: Option<string>, item: Option<string>, revision: Option<string>)

  datatype Coordinate = Coordinate(item: string, revision: string)

  datatype Requested = Requested(vector: string, at: Coordinate)

  predicate SafeIdentifier(value: Option<string>, maxLength: nat) {
    value.Some? && value.value != "" && |value.value| <= maxLength && forall i | 0 <= i < |value.value| :: value.value[i] >= ' '
  }

  predicate Usable(c: Candidate) {
    c.Mapping? && SafeIdentifier(c.vector, 512) && SafeIdentifier(c.item, 512) && SafeIdentifier(c.revision, 512)
  }

  function At(c: Candidate): Coordinate
    requires Usable(c)
  {
    Coordinate(c.item.value, c.revision.value)
  }

  /** Every valid coordinate submitted for one vector id. */
  function Coordinates(cs: seq<Candidate>, v: string): set<Coordinate> {
    set c | c in cs && Usable(c) && c.vector.value == v :: At(c)
  }

  /** The vector ids in the order of their first valid appearance. */
  function FirstSeen(cs: seq<Candidate>): seq<string> {
    if cs == [] then []
    else
      var before := FirstSeen(cs[..|cs| - 1]);
      var c := cs[|cs| - 1];
      if Usable(c) && c.vector.value !in before then before + [c.vector.value] else before
  }

  /** The ids whose submitted coordinates all agree, in that order. */
  function Agreeing(cs: seq<Candidate>, ids: seq<string>): seq<Requested> {
    if ids == [] then []
    else
      var before := Agreeing(cs, ids[..|ids| - 1]);
      var v := ids[|ids| - 1];
      if exists at :: at in Coordinates(cs, v) && Coordinates(cs, v) == {at} then
        var at :| at in Coordinates(cs, v) && Coordinates(cs, v) == {at};
        before + [Requested(v, at)]
      else before
  }

  function Normalised(cs: seq<Candidate>): seq<Requested> {
    Agreeing(cs, FirstSeen(cs))
  }

  /** What one candidate adds to the coordinates of an id. */
  function Extra(c: Candidate, v: string): set<Coordinate> {
    if Usable(c) && c.vector.value == v then {At(c)} else {}
  }

  lemma CoordinatesGrow(cs: seq<Candidate>, k: nat, v: string)
    requires k < |cs|
    ensures Coordinates(cs[..k + 1], v)
            == Coordinates(cs[..k], v) + Extra(cs[k], v)
  {
    assert cs[..k + 1] == cs[..k] + [cs[k]];
  }

  /** What the dictionary and the set of conflicts say about one id. */
  ghost predicate Known(byVector: map<string, Coordinate>, conflicted: set<string>, seen: set<Coordinate>, v: string) {
    if v in byVector then v !in conflicted && seen == {byVector[v]}
    else if v in conflicted then |seen| >= 2
    else seen == {}
  }

  lemma AddedCoordinate(seen: set<Coordinate>, at: Coordinate)
    ensures |seen| <= |seen + {at}|
    ensures forall prior | seen == {prior} && prior != at :: |seen + {at}| == 2
  {
    if at in seen {
      assert seen + {at} == seen;
    }
  }

  method NormaliseCandidates(cs: seq<Candidate>) returns (requested: seq<Requested>)
    ensures requested == Normalised(cs)
  {
    assert forall v :: Coordinates(cs[..0], v) == {};
    hide Coordinates, SafeIdentifier;
    var byVector: map<string, Coordinate> := map[];
    var conflicted: set<string> := {};
    var order: seq<string> := [];
    for k := 0 to |cs|
      invariant forall v :: Known(byVector, conflicted, Coordinates(cs[..k], v), v)
      invariant order == FirstSeen(cs[..k]) && forall v :: v in order <==> v in byVector || v in conflicted
    {
      ghost var next := cs[..k + 1];
      assert next[..k] == cs[..k];
      forall v
        ensures Coordinates(next, v)
                == Coordinates(cs[..k], v) + Extra(cs[k], v)
      {
        CoordinatesGrow(cs, k, v);
      }
      if Usable(cs[k]) {
        byVector, conflicted, order := Absorb(cs[..k], cs[k], byVector, conflicted, order);
      } else {
        assert forall v :: Coordinates(cs[..k], v) + Extra(cs[k], v) == Coordinates(cs[..k], v);
      }
      forall v
        ensures Known(byVector, conflicted, Coordinates(next, v), v)
      {
        assert Known(byVector, conflicted, Coordinates(cs[..k], v) + Extra(cs[k], v), v);
      }
    }
    assert cs[..|cs|] == cs;
    requested := Surviving(cs, order, byVector, conflicted);
  }

  /** One usable candidate against the dictionary and the conflicts. */
  method Absorb(ghost before: seq<Candidate>, c: Candidate, byVector: map<string, Coordinate>, conflicted: set<string>, order: seq<string>)
    returns (byVector': map<string, Coordinate>, conflicted': set<string>, order': seq<string>)
    requires Usable(c)
    requires forall v :: Known(byVector, conflicted, Coordinates(before, v), v)
    requires forall v :: v in order <==> v in byVector || v in conflicted
    ensures forall v :: Known(byVector', conflicted', Coordinates(before, v) + Extra(c, v), v)
    ensures order' == (if c.vector.value in order then order else order + [c.vector.value])
    ensures forall v :: v in order' <==> v in byVector' || v in conflicted'
  {
    hide Coordinates;
    byVector', conflicted', order' := byVector, conflicted, order;
    var v := c.vector.value;
    var at := At(c);
    AddedCoordinate(Coordinates(before, v), at);
    assert Known(byVector, conflicted, Coordinates(before, v), v);
    if v in byVector && byVector[v] != at {
      byVector' := byVector - {v};
      conflicted' := conflicted + {v};
    } else if v !in conflicted {
      byVector' := byVector[v := at];
    }
    if v !in order {
      order' := order + [v];
    }
    forall u
      ensures Known(byVector', conflicted', Coordinates(before, u) + Extra(c, u), u)
    {
      assert Known(byVector, conflicted, Coordinates(before, u), u);
      if u != v {
        assert Coordinates(before, u) + {} == Coordinates(before, u);
      }
    }
  }

  /** The entries still in the dictionary, in insertion order. */
  method Surviving(ghost cs: seq<Candidate>, order: seq<string>, byVector: map<string, Coordinate>, ghost conflicted: set<string>)
    returns (requested: seq<Requested>)
    requires forall v :: Known(byVector, conflicted, Coordinates(cs, v), v)
    ensures requested == Agreeing(cs, order)
  {
    hide Coordinates;
    requested := [];
    for k := 0 to |order|
      invariant requested == Agreeing(cs, order[..k])
    {
      assert order[..k + 1][..k] == order[..k];
      var v := order[k];
      assert Known(byVector, conflicted, Coordinates(cs, v), v);
      if v in byVector {
        requested := requested + [Requested(v, byVector[v])];
      }
    }
    assert order[..|order|] == order;
  }

  // ---------- what normalisation means ----------

  lemma {:induction false} FirstSeenMembers(cs: seq<Candidate>)
    ensures forall v :: v in FirstSeen(cs) <==> Coordinates(cs, v) != {}
    ensures forall i, j | 0 <= i < j < |FirstSeen(cs)| :: FirstSeen(cs)[i] != FirstSeen(cs)[j]
  {
    if cs != [] {
      var k := |cs| - 1;
      FirstSeenMembers(cs[..k]);
      assert cs[..k + 1] == cs;
      forall v
        ensures Coordinates(cs, v) == Coordinates(cs[..k], v) + Extra(cs[k], v)
      {
        CoordinatesGrow(cs, k, v);
      }
      hide Coordinates;
    }
  }

  lemma {:induction false} AgreeingMembers(cs: seq<Candidate>, ids: seq<string>)
    requires forall i, j | 0 <= i < j < |ids| :: ids[i] != ids[j]
    ensures forall r: Requested :: r in Agreeing(cs, ids) <==> r.vector in ids && Coordinates(cs, r.vector) == {r.at}
    ensures forall i, j | 0 <= i < j < |Agreeing(cs, ids)| :: Agreeing(cs, ids)[i].vector != Agreeing(cs, ids)[j].vector
  {
    hide Coordinates;
    if ids != [] {
      var rest := ids[..|ids| - 1];
      var v := ids[|ids| - 1];
      AgreeingMembers(cs, rest);
      assert ids == rest + [v];
      if exists at :: at in Coordinates(cs, v) && Coordinates(cs, v) == {at} {
        var at :| at in Coordinates(cs, v) && Coordinates(cs, v) == {at};
        assert Agreeing(cs, ids) == Agreeing(cs, rest) + [Requested(v, at)];
      } else {
        assert Agreeing(cs, ids) == Agreeing(cs, rest);
        forall at
          ensures Coordinates(cs, v) != {at}
        {
          assert at in {at};
        }
      }
    }
  }

  /** Exactly the ids seen with one and only one valid coordinate, each once. */
  lemma NormalisedExactly(cs: seq<Candidate>)
    ensures forall r: Requested :: r in Normalised(cs) <==> Coordinates(cs, r.vector) == {r.at}
    ensures forall i, j | 0 <= i < j < |Normalised(cs)| :: Normalised(cs)[i].vector != Normalised(cs)[j].vector
  {
    hide Coordinates;
    FirstSeenMembers(cs);
    AgreeingMembers(cs, FirstSeen(cs));
  }

  /** Neither the order nor the repetition of the candidates matters. */
  lemma OrderAndRepetitionDoNotMatter(cs: seq<Candidate>, ds: seq<Candidate>)
    requires forall c :: c in cs <==> c in ds
    ensures forall r: Requested :: r in Normalised(cs) <==> r in Normalised(ds)
  {
    NormalisedExactly(cs);
    NormalisedExactly(ds);
    forall v
      ensures Coordinates(cs, v) == Coordinates(ds, v)
    {
    }
    hide Normalised, Coordinates;
  }

  // ---------- the fence ----------

  datatype Record = Record(team: string, item: string, revision: string, deleted: bool)
  datatype Item = Item(active: bool, deleted: bool, serving: Option<string>)
  datatype Db = Db(records: map<string, Record>, items: map<(string, string), Item>)

  /** The join of one requested tuple with its record and item rows. */
  predicate Serves(db: Db, team: string, r: Requested) {
    && r.vector in db.records
    && var record := db.records[r.vector];
    && record.item == r.at.item && record.revision == r.at.revision && record.team == team && !record.deleted
    && (record.team, record.item) in db.items
    && var item := db.items[(record.team, record.item)];
    && item.active && !item.deleted && item.serving == Some(record.revision)
  }

  function Query(db: Db, team: string, requested: seq<Requested>): set<string> {
    set r | r in requested && Serves(db, team, r) :: r.vector
  }

  function Eligible(db: Db, team: string, cs: seq<Candidate>): set<string> {
    if SafeIdentifier(Some(team), 128) then Query(db, team, Normalised(cs)) else {}
  }

  /** Chunks of any size approve what one query over everything would. */
  method FilterRetrievalEligible(db: Db, team: string, cs: seq<Candidate>, chunkSize: nat) returns (approved: set<string>)
    requires chunkSize >= 1
    ensures approved == Eligible(db, team, cs)
  {
    hide Normalised, Serves, SafeIdentifier;
    approved := {};
    var requested := NormaliseCandidates(cs);
    if requested == [] || !SafeIdentifier(Some(team), 128) {
      return;
    }
    var size := if chunkSize < 250 then chunkSize else 250;
    var start := 0;
    while start < |requested|
      invariant 0 <= start <= |requested|
      invariant approved == Query(db, team, requested[..start])
    {
      var stop := if start + size < |requested| then start + size else |requested|;
      var chunk := requested[start..stop];
      assert requested[..stop] == requested[..start] + chunk;
      approved := approved + Query(db, team, chunk);
      start := stop;
    }
    assert requested[..|requested|] == requested;
  }

  /** An id is approved exactly when every valid coordinate submitted for it is the same one and that one
      is a live record of the Team whose item serves that revision. */
  lemma ApprovedExactly(db: Db, team: string, cs: seq<Candidate>, v: string)
    ensures v in Eligible(db, team, cs)
            <==> Clean(team, 128)
                 && exists at :: at in Coordinates(cs, v) && Coordinates(cs, v) == {at}
                                 && v in db.records && db.records[v] == Record(team, at.item, at.revision, false)
                                 && (team, at.item) in db.items && db.items[(team, at.item)] == Item(true, false, Some(at.revision))
  {
    AgreedAndServed(db, team, cs, v);
    assert forall at :: Serves(db, team, Requested(v, at)) <==>
      && v in db.records && db.records[v] == Record(team, at.item, at.revision, false)
      && (team, at.item) in db.items && db.items[(team, at.item)] == Item(true, false, Some(at.revision));
    hide Eligible, Coordinates, Serves;
  }

  /** A non-empty text of at most so many characters, none of them a control character. */
  predicate Clean(value: string, most: nat) {
    0 < |value| <= most && forall c | c in value :: c as int >= 32
  }

  /** The coordinates seen for an id are those of the mappings whose three values are clean texts. */
  lemma CoordinatesExactly(cs: seq<Candidate>, v: string, at: Coordinate)
    ensures at in Coordinates(cs, v) <==>
      Mapping(Some(v), Some(at.item), Some(at.revision)) in cs && Clean(v, 512) && Clean(at.item, 512) && Clean(at.revision, 512)
  {
    var c := Mapping(Some(v), Some(at.item), Some(at.revision));
    SafeIsClean(v, 512);
    SafeIsClean(at.item, 512);
    SafeIsClean(at.revision, 512);
    if c in cs && Usable(c) {
      assert At(c) == at;
    }
    hide SafeIdentifier, Clean;
  }

  lemma SafeIsClean(value: string, most: nat)
    ensures SafeIdentifier(Some(value), most) <==> Clean(value, most)
  {
    assert forall i | 0 <= i < |value| :: value[i] in value;
  }

  lemma AgreedAndServed(db: Db, team: string, cs: seq<Candidate>, v: string)
    ensures v in Eligible(db, team, cs)
            <==> Clean(team, 128)
                 && exists at :: at in Coordinates(cs, v) && Coordinates(cs, v) == {at} && Serves(db, team, Requested(v, at))
  {
    SafeIsClean(team, 128);
    NormalisedExactly(cs);
    hide Normalised, Serves, SafeIdentifier, Coordinates;
    forall at | Coordinates(cs, v) == {at}
      ensures at in Coordinates(cs, v) && Requested(v, at) in Normalised(cs)
    {
      assert at in {at};
      assert Requested(v, at).vector == v;
    }
    if v in Eligible(db, team, cs) {
      var r :| r in Normalised(cs) && Serves(db, team, r) && r.vector == v;
      assert r == Requested(v, r.at);
    }
  }

  // ---------- the order of the result ----------

  /** Some usable candidate with id v comes before every usable candidate with id u. */
  predicate SeenBefore(cs: seq<Candidate>, v: string, u: string) {
    exists a :: 0 <= a < |cs| && Usable(cs[a]) && cs[a].vector == Some(v)
                && forall b | 0 <= b < a && Usable(cs[b]) :: cs[b].vector != Some(u)
  }

  lemma SeenEarlier(cs: seq<Candidate>, v: string, u: string)
    requires cs != [] && SeenBefore(cs[..|cs| - 1], v, u)
    ensures SeenBefore(cs, v, u)
  {
    var rest := cs[..|cs| - 1];
    var a :| 0 <= a < |rest| && Usable(rest[a]) && rest[a].vector == Some(v)
             && forall b | 0 <= b < a && Usable(rest[b]) :: rest[b].vector != Some(u);
    hide Usable;
    assert cs[a] == rest[a] && forall b | 0 <= b < a :: cs[b] == rest[b];
  }

  lemma {:induction false} FirstSeenInOrder(cs: seq<Candidate>)
    ensures forall i, j | 0 <= i < j < |FirstSeen(cs)| :: SeenBefore(cs, FirstSeen(cs)[i], FirstSeen(cs)[j])
  {
    if cs != [] {
      var rest := cs[..|cs| - 1];
      var c := cs[|cs| - 1];
      FirstSeenInOrder(rest);
      FirstSeenMembers(rest);
      var ids, before := FirstSeen(cs), FirstSeen(rest);
      forall i, j | 0 <= i < j < |ids|
        ensures SeenBefore(cs, ids[i], ids[j])
      {
        if j == |before| {
          AppendedLast(cs, ids[i]);
        } else {
          SeenEarlier(cs, ids[i], ids[j]);
        }
      }
    }
  }

  lemma AppendedLast(cs: seq<Candidate>, v: string)
    requires cs != [] && Usable(cs[|cs| - 1]) && cs[|cs| - 1].vector.value !in FirstSeen(cs[..|cs| - 1])
    requires v in FirstSeen(cs[..|cs| - 1])
    ensures SeenBefore(cs, v, cs[|cs| - 1].vector.value)
  {
    var rest := cs[..|cs| - 1];
    var u := cs[|cs| - 1].vector.value;
    FirstSeenMembers(rest);
    var at := Pick(Coordinates(rest, v));
    var c :| c in rest && Usable(c) && c.vector.value == v && At(c) == at;
    var a :| 0 <= a < |rest| && rest[a] == c;
    assert cs[a] == c && c.vector == Some(v);
    NoneSeen(rest, u);
    assert forall b | 0 <= b < a :: cs[b] == rest[b];
    hide SafeIdentifier;
  }

  lemma Seen(cs: seq<Candidate>, i: nat)
    requires i < |cs| && Usable(cs[i])
    ensures At(cs[i]) in Coordinates(cs, cs[i].vector.value)
  {
  }

  lemma NoneSeen(cs: seq<Candidate>, u: string)
    requires Coordinates(cs, u) == {}
    ensures forall i | 0 <= i < |cs| && Usable(cs[i]) :: cs[i].vector != Some(u)
  {
    hide Coordinates, SafeIdentifier;
    forall i | 0 <= i < |cs| && Usable(cs[i])
      ensures cs[i].vector != Some(u)
    {
      Seen(cs, i);
    }
  }

  lemma {:induction false} AgreeingInOrder(cs: seq<Candidate>, ids: seq<string>)
    requires forall i, j | 0 <= i < j < |ids| :: SeenBefore(cs, ids[i], ids[j])
    ensures forall r | r in Agreeing(cs, ids) :: r.vector in ids
    ensures forall i, j | 0 <= i < j < |Agreeing(cs, ids)| :: SeenBefore(cs, Agreeing(cs, ids)[i].vector, Agreeing(cs, ids)[j].vector)
  {
    hide Coordinates, SeenBefore;
    if ids != [] {
      var rest := ids[..|ids| - 1];
      var v := ids[|ids| - 1];
      AgreeingInOrder(cs, rest);
      assert forall u | u in rest :: SeenBefore(cs, u, v);
    }
  }

  /** The ids come in the order of their first usable appearance. */
  lemma NormalisedInOrder(cs: seq<Candidate>)
    ensures forall i, j | 0 <= i < j < |Normalised(cs)| :: SeenBefore(cs, Normalised(cs)[i].vector, Normalised(cs)[j].vector)
  {
    FirstSeenInOrder(cs);
    AgreeingInOrder(cs, FirstSeen(cs));
    hide SeenBefore, FirstSeen, Agreeing;
  }
}
