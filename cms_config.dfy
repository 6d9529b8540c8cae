/** The configuration object the server is built from (server/resource/cms_config.go),
    with the de-duplicating `AddRelations`: a relation is appended only when no
    relation with the same hash is already listed. */
module Config {
  import opened Text
  import opened Schema

  /** The relations `AddRelations` leaves behind, as a fold over its arguments:
      each argument is checked against the list as it stands, including the
      relations appended for earlier arguments. */
  function AddedRelations(rels: seq<Relation>, added: seq<Relation>, hash: RelationHash): seq<Relation>
  {
    if |added| == 0 then rels
    else
      var acc := AddedRelations(rels, added[..|added| - 1], hash);
      var last := added[|added| - 1];
      if hash(last) in HashesOf(acc, hash) then acc else acc + [last]
  }

  /** An independent description: the arguments, left to right, whose hash was
      neither listed nor seen among the earlier arguments. */
  function FirstOfEachHash(added: seq<Relation>, hash: RelationHash, seen: set<string>): seq<Relation>
  {
    if |added| == 0 then []
    else if hash(added[0]) in seen then FirstOfEachHash(added[1..], hash, seen)
    else [added[0]] + FirstOfEachHash(added[1..], hash, seen + {hash(added[0])})
  }

  function RelationsOf(relations: Option<seq<Relation>>): seq<Relation>
  {
    match relations
    case None => []
    case Some(rels) => rels
  }

  lemma HashesAppend(a: seq<Relation>, b: seq<Relation>, hash: RelationHash)
    ensures HashesOf(a + b, hash) == HashesOf(a, hash) + HashesOf(b, hash)
  {
    forall h | h in HashesOf(a + b, hash) ensures h in HashesOf(a, hash) + HashesOf(b, hash) {
      var k :| 0 <= k < |a + b| && hash((a + b)[k]) == h;
      if k >= |a| {
        assert hash(b[k - |a|]) == h;
      }
    }
    forall h | h in HashesOf(a, hash) + HashesOf(b, hash) ensures h in HashesOf(a + b, hash) {
      if h in HashesOf(a, hash) {
        var k :| 0 <= k < |a| && hash(a[k]) == h;
        assert (a + b)[k] == a[k];
      } else {
        var k :| 0 <= k < |b| && hash(b[k]) == h;
        assert (a + b)[|a| + k] == b[k];
      }
    }
  }

  lemma HashesSingleton(r: Relation, hash: RelationHash)
    ensures HashesOf([r], hash) == {hash(r)}
  {
    assert [r][0] == r;
    assert hash([r][0]) in HashesOf([r], hash);
  }

  /** Appending one more argument to the front-to-back description. */
  lemma {:induction false} FirstOfEachHashSnoc(added: seq<Relation>, r: Relation, hash: RelationHash, seen: set<string>)
    ensures FirstOfEachHash(added + [r], hash, seen) ==
      FirstOfEachHash(added, hash, seen) + (if hash(r) in seen + HashesOf(FirstOfEachHash(added, hash, seen), hash) then [] else [r])
    decreases |added|
  {
    if |added| == 0 {
      assert HashesOf([], hash) == {};
      assert [r][1..] == [];
    } else {
      var x := added[0];
      assert (added + [r])[1..] == added[1..] + [r];
      if hash(x) in seen {
        FirstOfEachHashSnoc(added[1..], r, hash, seen);
      } else {
        var seen' := seen + {hash(x)};
        FirstOfEachHashSnoc(added[1..], r, hash, seen');
        var rest := FirstOfEachHash(added[1..], hash, seen');
        HashesAppend([x], rest, hash);
        HashesSingleton(x, hash);
        assert [x] + rest == FirstOfEachHash(added, hash, seen);
      }
    }
  }

  /** `AddRelations` appends exactly the first argument of each hash not yet
      listed, in argument order, and keeps the listed relations as a prefix. */
  lemma {:induction false} AddedRelationsAppendsFirstOfEach(rels: seq<Relation>, added: seq<Relation>, hash: RelationHash)
    ensures AddedRelations(rels, added, hash) == rels + FirstOfEachHash(added, hash, HashesOf(rels, hash))
  {
    if |added| > 0 {
      var init := added[..|added| - 1];
      var last := added[|added| - 1];
      AddedRelationsAppendsFirstOfEach(rels, init, hash);
      FirstOfEachHashSnoc(init, last, hash, HashesOf(rels, hash));
      HashesAppend(rels, FirstOfEachHash(init, hash, HashesOf(rels, hash)), hash);
      assert init + [last] == added;
    }
  }

  /** Afterwards every argument's hash is listed. */
  lemma {:induction false} AddedRelationsCover(rels: seq<Relation>, added: seq<Relation>, hash: RelationHash)
    ensures HashesOf(rels, hash) + HashesOf(added, hash) <= HashesOf(AddedRelations(rels, added, hash), hash)
  {
    if |added| > 0 {
      var init := added[..|added| - 1];
      var last := added[|added| - 1];
      AddedRelationsCover(rels, init, hash);
      var acc := AddedRelations(rels, init, hash);
      HashesAppend(acc, [last], hash);
      HashesAppend(init, [last], hash);
      HashesSingleton(last, hash);
      assert init + [last] == added;
    }
  }

  /** The listed relations stay, in their order, and no two relations appended
      by one call share a hash, nor share one with a relation listed before. */
  lemma {:induction false} AddedRelationsDistinct(rels: seq<Relation>, added: seq<Relation>, hash: RelationHash)
    ensures |rels| <= |AddedRelations(rels, added, hash)|
    ensures AddedRelations(rels, added, hash)[..|rels|] == rels
    ensures forall i, j :: |rels| <= i < |AddedRelations(rels, added, hash)| && 0 <= j < |AddedRelations(rels, added, hash)| && j != i ==>
      hash(AddedRelations(rels, added, hash)[i]) != hash(AddedRelations(rels, added, hash)[j])
  {
    if |added| > 0 {
      var init := added[..|added| - 1];
      var last := added[|added| - 1];
      AddedRelationsDistinct(rels, init, hash);
      var acc := AddedRelations(rels, init, hash);
      if hash(last) !in HashesOf(acc, hash) {
        var r := acc + [last];
        forall i, j | |rels| <= i < |r| && 0 <= j < |r| && j != i ensures hash(r[i]) != hash(r[j]) {
          if i == |acc| {
            assert hash(acc[j]) in HashesOf(acc, hash);
          } else if j == |acc| {
            assert hash(acc[i]) in HashesOf(acc, hash);
          }
        }
      }
    }
  }

  /** A list that already holds every argument's hash is left as it is. */
  lemma {:induction false} AddedRelationsNothingNew(rels: seq<Relation>, added: seq<Relation>, hash: RelationHash)
    requires HashesOf(added, hash) <= HashesOf(rels, hash)
    ensures AddedRelations(rels, added, hash) == rels
  {
    if |added| > 0 {
      var init := added[..|added| - 1];
      HashesAppend(init, [added[|added| - 1]], hash);
      assert init + [added[|added| - 1]] == added;
      AddedRelationsNothingNew(rels, init, hash);
      assert hash(added[|added| - 1]) in HashesOf(added, hash);
    }
  }

  /** Calling `AddRelations` twice with the same arguments is the same as calling it once. */
  lemma AddedRelationsIdempotent(rels: seq<Relation>, added: seq<Relation>, hash: RelationHash)
    ensures AddedRelations(AddedRelations(rels, added, hash), added, hash) == AddedRelations(rels, added, hash)
  {
    AddedRelationsCover(rels, added, hash);
    AddedRelationsNothingNew(AddedRelations(rels, added, hash), added, hash);
  }

  class CmsConfig {
    var tables: seq<TableInfo>
    var hostname: string
    /** `Relations`, which may still be nil (None). */
    var relations: Option<seq<Relation>>

    constructor (tables: seq<TableInfo>, hostname: string)
      ensures this.tables == tables && this.hostname == hostname && relations == None
    {
      this.tables := tables;
      this.hostname := hostname;
      relations := None;
    }

    /** Whether a relation of this hash is listed: the inner loop of `AddRelations`. */
    method Listed(h: string, hash: RelationHash) returns (found: bool)
      requires relations.Some?
      ensures found <==> h in HashesOf(relations.value, hash)
    {
      var rels := relations.value;
      found := false;
      var k := 0;
      while k < |rels|
        invariant 0 <= k <= |rels|
        invariant h !in HashesOf(rels[..k], hash)
      {
        assert rels[..k + 1] == rels[..k] + [rels[k]];
        HashesAppend(rels[..k], [rels[k]], hash);
        HashesSingleton(rels[k], hash);
        if hash(rels[k]) == h {
          found := true;
          return;
        }
        k := k + 1;
      }
      assert rels[..k] == rels;
    }

    /** `AddRelations`: a nil list becomes empty, then each argument whose hash
        is not yet listed is appended. */
    method AddRelations(added: seq<Relation>, hash: RelationHash)
      modifies this
      ensures relations == Some(AddedRelations(RelationsOf(old(relations)), added, hash))
      ensures tables == old(tables) && hostname == old(hostname)
    {
      if relations.None? {
        relations := Some([]);
      }
      ghost var start := relations.value;
      for i := 0 to |added|
        invariant relations == Some(AddedRelations(start, added[..i], hash))
        invariant tables == old(tables) && hostname == old(hostname)
      {
        assert added[..i + 1][..i] == added[..i];
        var found := Listed(hash(added[i]), hash);
        if !found {
          relations := Some(relations.value + [added[i]]);
        }
      }
      assert added[..|added|] == added;
    }
  }
}
