/** The publisher's list of per-user positions (`userLocations` in Home) and the two
    functional updaters applied to it: the upsert run on `updateLocationResponse` and the
    filter run on `userLeftRoom`. */
module UserLocations {
  import opened SessionTypes

  datatype UserLocation = UserLocation(userId: string, position: Position)

  /** No two entries share a userId. */
  predicate UniqueIds(s: seq<UserLocation>) {
    forall i, j :: 0 <= i < j < |s| ==> s[i].userId != s[j].userId
  }

  predicate HasUser(s: seq<UserLocation>, u: string) {
    exists j :: 0 <= j < |s| && s[j].userId == u
  }

  /** `Array.prototype.findIndex` on the userId: the first matching index, or -1. */
  function FindIndex(s: seq<UserLocation>, u: string): (r: int)
    ensures -1 <= r < |s|
    ensures r == -1 <==> !HasUser(s, u)
    ensures 0 <= r ==> s[r].userId == u && forall j :: 0 <= j < r ==> s[j].userId != u
  {
    if s == [] then -1
    else if s[0].userId == u then 0
    else
      var k := FindIndex(s[1..], u);
      assert forall j :: 0 < j < |s| ==> s[j] == s[1..][j - 1];
      if k == -1 then -1 else k + 1
  }

  /** The position the list records for `u`: that of the first entry naming `u`. This is
      the reference reading of the list that the lemmas below are stated against. */
  function Lookup(s: seq<UserLocation>, u: string): Option<Position> {
    if s == [] then None
    else if s[0].userId == u then Some(s[0].position)
    else Lookup(s[1..], u)
  }

  /** Handler of `updateLocationResponse`: overwrite the entry of `u` in place when there
      is one, else append a new entry at the end. */
  function Upsert(s: seq<UserLocation>, u: string, p: Position): seq<UserLocation> {
    var i := FindIndex(s, u);
    if i != -1 then s[i := UserLocation(u, p)] else s + [UserLocation(u, p)]
  }

  /** Handler of `userLeftRoom`: keep exactly the entries whose userId differs from `u`. */
  function RemoveUser(s: seq<UserLocation>, u: string): (r: seq<UserLocation>)
    ensures |r| <= |s|
    ensures forall x :: x in r ==> x in s && x.userId != u
  {
    if s == [] then []
    else (if s[0].userId == u then [] else [s[0]]) + RemoveUser(s[1..], u)
  }

  // ---------------------------------------------------------------------------
  // Lookup and FindIndex agree

  lemma {:induction false} LookupFindIndex(s: seq<UserLocation>, u: string)
    ensures Lookup(s, u) == if FindIndex(s, u) == -1 then None else Some(s[FindIndex(s, u)].position)
  {
    if s != [] && s[0].userId != u {
      LookupFindIndex(s[1..], u);
    }
  }

  // ---------------------------------------------------------------------------
  // Upsert

  /** A known user keeps the list's length and changes only the first slot naming it. */
  lemma UpsertExisting(s: seq<UserLocation>, u: string, p: Position)
    requires HasUser(s, u)
    ensures var r := Upsert(s, u, p); var k := FindIndex(s, u);
      |r| == |s| && 0 <= k < |s| && s[k].userId == u &&
      (forall j :: 0 <= j < k ==> s[j].userId != u) &&
      r[k] == UserLocation(u, p) &&
      forall j :: 0 <= j < |s| && j != k ==> r[j] == s[j]
  {
  }

  /** An unknown user is appended at the end; the earlier entries stay as they were. */
  lemma UpsertNew(s: seq<UserLocation>, u: string, p: Position)
    requires !HasUser(s, u)
    ensures Upsert(s, u, p) == s + [UserLocation(u, p)]
  {
  }

  /** After the upsert the list records `p` for `u` and the same as before for everyone else. */
  lemma {:induction false} LookupAfterUpsert(s: seq<UserLocation>, u: string, p: Position, w: string)
    ensures Lookup(Upsert(s, u, p), w) == if w == u then Some(p) else Lookup(s, w)
  {
    if s == [] {
    } else if s[0].userId == u {
      assert Upsert(s, u, p) == [UserLocation(u, p)] + s[1..];
      assert ([UserLocation(u, p)] + s[1..])[1..] == s[1..];
    } else {
      LookupAfterUpsert(s[1..], u, p, w);
      UpsertCons(s, u, p);
    }
  }

  /** Upsert past a head entry that does not name `u`. */
  lemma UpsertCons(s: seq<UserLocation>, u: string, p: Position)
    requires s != [] && s[0].userId != u
    ensures Upsert(s, u, p) == [s[0]] + Upsert(s[1..], u, p)
  {
    var i := FindIndex(s, u);
    var k := FindIndex(s[1..], u);
    HasUserTail(s, u);
    if i != -1 {
      assert s[1..][k].userId == u && s[k + 1].userId == u;
      assert i == k + 1 by {
        assert i <= k + 1;
        assert forall j :: 0 <= j < k ==> s[1..][j].userId != u;
        assert forall j :: 1 <= j < k + 1 ==> s[j].userId != u by {
          forall j | 1 <= j < k + 1 ensures s[j].userId != u {
            assert s[j] == s[1..][j - 1];
          }
        }
      }
      assert s[i := UserLocation(u, p)] == [s[0]] + s[1..][k := UserLocation(u, p)];
    } else {
      assert s + [UserLocation(u, p)] == [s[0]] + (s[1..] + [UserLocation(u, p)]);
    }
  }

  /** Past a head entry that does not name `u`, `u` is in the list iff it is in the tail. */
  lemma HasUserTail(s: seq<UserLocation>, u: string)
    requires s != []
    ensures HasUser(s[1..], u) ==> HasUser(s, u)
    ensures s[0].userId != u && HasUser(s, u) ==> HasUser(s[1..], u)
  {
    if HasUser(s[1..], u) {
      var j :| 0 <= j < |s[1..]| && s[1..][j].userId == u;
      assert s[j + 1].userId == u;
    }
    if s[0].userId != u && HasUser(s, u) {
      var j :| 0 <= j < |s| && s[j].userId == u;
      assert s[1..][j - 1].userId == u;
    }
  }

  /** Upsert keeps userIds unique. */
  lemma UpsertKeepsUnique(s: seq<UserLocation>, u: string, p: Position)
    requires UniqueIds(s)
    ensures UniqueIds(Upsert(s, u, p))
  {
    var r := Upsert(s, u, p);
    var i := FindIndex(s, u);
    if i == -1 {
      assert forall j :: 0 <= j < |s| ==> r[j] == s[j];
    } else {
      forall a, b | 0 <= a < b < |r| ensures r[a].userId != r[b].userId {
        if a != i && b != i {
          assert r[a] == s[a] && r[b] == s[b];
        } else if a == i {
          assert r[b] == s[b] && s[a].userId == u;
        } else {
          assert r[a] == s[a] && s[b].userId == u;
        }
      }
    }
  }

  // ---------------------------------------------------------------------------
  // RemoveUser

  /** Every entry not naming `u` survives the filter. */
  lemma {:induction false} RemoveUserKeepsOthers(s: seq<UserLocation>, u: string, x: UserLocation)
    requires x in s && x.userId != u
    ensures x in RemoveUser(s, u)
  {
    if s[0] != x {
      assert x in s[1..];
      RemoveUserKeepsOthers(s[1..], u, x);
    }
  }

  /** The filter distributes over concatenation, so relative order is preserved. */
  lemma {:induction false} RemoveUserConcat(a: seq<UserLocation>, b: seq<UserLocation>, u: string)
    ensures RemoveUser(a + b, u) == RemoveUser(a, u) + RemoveUser(b, u)
  {
    if a == [] {
      assert a + b == b;
    } else {
      assert (a + b)[0] == a[0];
      assert (a + b)[1..] == a[1..] + b;
      RemoveUserConcat(a[1..], b, u);
    }
  }

  /** A list with no entry for `u` is left exactly as it was. */
  lemma {:induction false} RemoveUserAbsent(s: seq<UserLocation>, u: string)
    requires !HasUser(s, u)
    ensures RemoveUser(s, u) == s
  {
    if s != [] {
      HasUserTail(s, u);
      RemoveUserAbsent(s[1..], u);
      assert s == [s[0]] + s[1..];
    }
  }

  /** After the filter nothing is recorded for `u`, and everyone else reads as before. */
  lemma {:induction false} LookupAfterRemove(s: seq<UserLocation>, u: string, w: string)
    ensures Lookup(RemoveUser(s, u), w) == if w == u then None else Lookup(s, w)
  {
    if s != [] {
      LookupAfterRemove(s[1..], u, w);
      if s[0].userId != u {
        assert RemoveUser(s, u) == [s[0]] + RemoveUser(s[1..], u);
        assert ([s[0]] + RemoveUser(s[1..], u))[1..] == RemoveUser(s[1..], u);
      } else {
        assert RemoveUser(s, u) == RemoveUser(s[1..], u);
      }
    }
  }

  /** The filter keeps userIds unique. */
  lemma {:induction false} RemoveUserKeepsUnique(s: seq<UserLocation>, u: string)
    requires UniqueIds(s)
    ensures UniqueIds(RemoveUser(s, u))
  {
    if s != [] {
      assert UniqueIds(s[1..]) by {
        forall i, j | 0 <= i < j < |s[1..]| ensures s[1..][i].userId != s[1..][j].userId {
          assert s[1..][i] == s[i + 1] && s[1..][j] == s[j + 1];
        }
      }
      RemoveUserKeepsUnique(s[1..], u);
      var t := RemoveUser(s[1..], u);
      if s[0].userId != u {
        forall x | x in t ensures x.userId != s[0].userId {
          var j :| 0 < j < |s| && s[j] == x by {
            assert x in s[1..];
            var k :| 0 <= k < |s[1..]| && s[1..][k] == x;
            assert s[k + 1] == x;
          }
        }
        var r := [s[0]] + t;
        forall i, j | 0 <= i < j < |r| ensures r[i].userId != r[j].userId {
          if i == 0 {
            assert r[j] == t[j - 1] && r[j] in t;
          } else {
            assert r[i] == t[i - 1] && r[j] == t[j - 1];
          }
        }
      }
    }
  }
}
