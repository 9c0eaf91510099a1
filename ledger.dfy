/**
 * The vote ledger of services/PollManager.java as values: the direct voters of
 * the native poll (a map from user to chosen option, kept here as a sequence
 * of pairs with unique users in one fixed iteration order), the external votes,
 * the positive count and the combined numbering used by the status list and by
 * revocation by number.
 */
module Ledger {
  import opened Wrappers
  import opened Votes

  /** A Telegram user as the map key, reduced to the two fields the bot reads: two users are the same key iff id and first name agree. */
  datatype User = User(id: int, firstName: string)

  /** One entry of directVoters: the voter and the index of the option chosen (0 is "for"). */
  datatype DirectVote = DirectVote(user: User, option: int)

  /** The iteration order of the map; each user at most once. */
  type DirectVoters = seq<DirectVote>

  predicate UniqueUsers(dv: DirectVoters) {
    forall i, j :: 0 <= i < j < |dv| ==> dv[i].user != dv[j].user
  }

  /** The map the sequence stands for. */
  function ToMap(dv: DirectVoters): map<User, int>
    decreases |dv|
  {
    if dv == [] then map[] else ToMap(dv[..|dv| - 1])[dv[|dv| - 1].user := dv[|dv| - 1].option]
  }

  /** Where `u` sits in the iteration order, if it is a key. */
  function IndexOfUser(dv: DirectVoters, u: User): (r: Option<nat>)
    ensures r.Some? ==> r.value < |dv| && dv[r.value].user == u
    ensures r.None? ==> forall i :: 0 <= i < |dv| ==> dv[i].user != u
    decreases |dv|
  {
    if dv == [] then None
    else if dv[|dv| - 1].user == u then Some(|dv| - 1)
    else IndexOfUser(dv[..|dv| - 1], u)
  }

  function RemoveAt<T>(s: seq<T>, i: nat): (r: seq<T>)
    requires i < |s|
    ensures |r| == |s| - 1
  {
    s[..i] + s[i + 1..]
  }

  /** Removing position `i` keeps every element at another position and adds none. */
  lemma RemoveAtKeepsOthers<T>(s: seq<T>, i: nat)
    requires i < |s|
    ensures forall j :: 0 <= j < |s| && j != i ==> s[j] in RemoveAt(s, i)
    ensures forall x :: x in RemoveAt(s, i) ==> x in s
  {
    forall j | 0 <= j < |s| && j != i
      ensures s[j] in RemoveAt(s, i)
    {
      if j < i {
        assert RemoveAt(s, i)[j] == s[j];
      } else {
        assert RemoveAt(s, i)[j - 1] == s[j];
      }
    }
  }

  /** `directVoters.put(u, option)`: an existing key keeps its place and takes the new option; a new key goes last. */
  function Put(dv: DirectVoters, u: User, option: int): DirectVoters {
    match IndexOfUser(dv, u)
    case Some(i) => dv[i := DirectVote(u, option)]
    case None => dv + [DirectVote(u, option)]
  }

  /** `directVoters.remove(u)`. */
  function RemoveUser(dv: DirectVoters, u: User): DirectVoters {
    match IndexOfUser(dv, u)
    case Some(i) => RemoveAt(dv, i)
    case None => dv
  }

  lemma ToMapKeys(dv: DirectVoters, u: User)
    ensures u in ToMap(dv) <==> exists i :: 0 <= i < |dv| && dv[i].user == u
    decreases |dv|
  {
    if dv != [] {
      var p := dv[..|dv| - 1];
      ToMapKeys(p, u);
      if u in ToMap(p) {
        var i :| 0 <= i < |p| && p[i].user == u;
        assert dv[i].user == u;
      }
      if exists i :: 0 <= i < |dv| && dv[i].user == u {
        var i :| 0 <= i < |dv| && dv[i].user == u;
        if i < |p| { assert p[i].user == u; }
      }
    }
  }

  /** With unique users, each entry's option is what the map holds for its user. */
  lemma {:induction false} ToMapAt(dv: DirectVoters, i: nat)
    requires UniqueUsers(dv) && i < |dv|
    ensures dv[i].user in ToMap(dv) && ToMap(dv)[dv[i].user] == dv[i].option
    decreases |dv|
  {
    if i < |dv| - 1 {
      var p := dv[..|dv| - 1];
      assert p[i] == dv[i];
      ToMapAt(p, i);
    }
  }

  /** A map with exactly the users of `dv` as keys, each mapped to its entry's option, is the map `dv` stands for. */
  lemma ToMapEquals(dv: DirectVoters, m: map<User, int>)
    requires UniqueUsers(dv)
    requires forall i :: 0 <= i < |dv| ==> dv[i].user in m && m[dv[i].user] == dv[i].option
    requires forall u :: u in m ==> exists i :: 0 <= i < |dv| && dv[i].user == u
    ensures ToMap(dv) == m
  {
    forall u ensures u in ToMap(dv) <==> u in m {
      ToMapKeys(dv, u);
    }
    forall u | u in m ensures ToMap(dv)[u] == m[u] {
      var i :| 0 <= i < |dv| && dv[i].user == u;
      ToMapAt(dv, i);
    }
  }

  /** put keeps the users unique and updates the map at `u` only. */
  lemma PutSpec(dv: DirectVoters, u: User, option: int)
    requires UniqueUsers(dv)
    ensures UniqueUsers(Put(dv, u, option))
    ensures ToMap(Put(dv, u, option)) == ToMap(dv)[u := option]
  {
    var r := Put(dv, u, option);
    match IndexOfUser(dv, u)
    case None =>
      assert r[..|r| - 1] == dv;
    case Some(i) =>
      var expected := ToMap(dv)[u := option];
      forall k | 0 <= k < |r| ensures r[k].user in expected && expected[r[k].user] == r[k].option {
        if k != i { ToMapAt(dv, k); }
      }
      forall w | w in expected ensures exists k :: 0 <= k < |r| && r[k].user == w {
        if w == u {
          assert r[i].user == w;
        } else {
          ToMapKeys(dv, w);
          var k :| 0 <= k < |dv| && dv[k].user == w;
          assert r[k].user == w;
        }
      }
      ToMapEquals(r, expected);
  }

  /** remove keeps the users unique and deletes `u` from the map. */
  lemma RemoveUserSpec(dv: DirectVoters, u: User)
    requires UniqueUsers(dv)
    ensures UniqueUsers(RemoveUser(dv, u))
    ensures ToMap(RemoveUser(dv, u)) == ToMap(dv) - {u}
  {
    var r := RemoveUser(dv, u);
    match IndexOfUser(dv, u)
    case None =>
      ToMapKeys(dv, u);
      assert ToMap(dv) - {u} == ToMap(dv);
    case Some(i) =>
      RemoveAtUnique(dv, i);
      var expected := ToMap(dv) - {u};
      forall k | 0 <= k < |r| ensures r[k].user in expected && expected[r[k].user] == r[k].option {
        var k' := if k < i then k else k + 1;
        assert r[k] == dv[k'];
        ToMapAt(dv, k');
      }
      forall w | w in expected ensures exists k :: 0 <= k < |r| && r[k].user == w {
        ToMapKeys(dv, w);
        var k :| 0 <= k < |dv| && dv[k].user == w;
        if k < i { assert r[k] == dv[k]; } else { assert r[k - 1] == dv[k]; }
      }
      ToMapEquals(r, expected);
  }

  lemma RemoveAtUnique(dv: DirectVoters, i: nat)
    requires UniqueUsers(dv) && i < |dv|
    ensures UniqueUsers(RemoveAt(dv, i))
  {
    var r := RemoveAt(dv, i);
    forall a, b | 0 <= a < b < |r| ensures r[a].user != r[b].user {
      var a' := if a < i then a else a + 1;
      var b' := if b < i then b else b + 1;
      assert r[a] == dv[a'] && r[b] == dv[b'];
    }
  }

  // ---------------------------------------------------------------- counting and numbering

  /** The number of direct voters whose option is 0. */
  function CountPositive(dv: DirectVoters): (r: nat)
    ensures r <= |dv|
    decreases |dv|
  {
    if dv == [] then 0
    else CountPositive(dv[..|dv| - 1]) + (if dv[|dv| - 1].option == 0 then 1 else 0)
  }

  /** getPositiveVotes: positive direct votes plus every external vote. */
  function PositiveVotes(dv: DirectVoters, ext: seq<Vote>): nat {
    CountPositive(dv) + |ext|
  }

  /** One line of the numbered vote list. */
  datatype Entry = DirectEntry(user: User) | ExternalEntry(vote: Vote)

  /** The positive direct voters, in iteration order. */
  function PositiveEntries(dv: DirectVoters): (r: seq<Entry>)
    ensures |r| == CountPositive(dv)
    decreases |dv|
  {
    if dv == [] then []
    else PositiveEntries(dv[..|dv| - 1])
         + (if dv[|dv| - 1].option == 0 then [DirectEntry(dv[|dv| - 1].user)] else [])
  }

  function ExternalEntries(ext: seq<Vote>): (r: seq<Entry>)
    ensures |r| == |ext| && forall i :: 0 <= i < |ext| ==> r[i] == ExternalEntry(ext[i])
  {
    seq(|ext|, i requires 0 <= i < |ext| => ExternalEntry(ext[i]))
  }

  /** The numbering shared by the status list and revocation by number: entry n is Combined(...)[n - 1]. */
  function Combined(dv: DirectVoters, ext: seq<Vote>): (r: seq<Entry>)
    ensures |r| == PositiveVotes(dv, ext)
  {
    PositiveEntries(dv) + ExternalEntries(ext)
  }

  lemma {:induction false} PositiveEntriesAppend(a: DirectVoters, b: DirectVoters)
    ensures PositiveEntries(a + b) == PositiveEntries(a) + PositiveEntries(b)
    decreases |b|
  {
    if b == [] {
      assert a + b == a;
    } else {
      var b' := b[..|b| - 1];
      assert (a + b)[..|a + b| - 1] == a + b';
      PositiveEntriesAppend(a, b');
    }
  }

  lemma CountPositiveAppend(a: DirectVoters, b: DirectVoters)
    ensures CountPositive(a + b) == CountPositive(a) + CountPositive(b)
  {
    PositiveEntriesAppend(a, b);
  }

  /** Where the n-th positive direct voter sits in the iteration order. */
  function PositiveIndex(dv: DirectVoters, n: int): (k: nat)
    requires 1 <= n <= CountPositive(dv)
    ensures k < |dv| && dv[k].option == 0 && CountPositive(dv[..k]) == n - 1
    decreases |dv|
  {
    var last := |dv| - 1;
    if dv[last].option == 0 && CountPositive(dv[..last]) == n - 1 then last
    else
      var k := PositiveIndex(dv[..last], n);
      assert dv[..last][..k] == dv[..k];
      k
  }

  lemma CountPositiveStep(dv: DirectVoters, j: nat)
    requires j < |dv|
    ensures CountPositive(dv[..j + 1]) == CountPositive(dv[..j]) + (if dv[j].option == 0 then 1 else 0)
  {
    assert dv[..j + 1][..j] == dv[..j];
  }

  /** A positive direct voter at i raises the count of every longer prefix. */
  lemma {:induction false} CountPositiveGrows(dv: DirectVoters, i: nat, j: nat)
    requires i < j <= |dv| && dv[i].option == 0
    ensures CountPositive(dv[..i]) < CountPositive(dv[..j])
    decreases j
  {
    CountPositiveStep(dv, j - 1);
    if j - 1 > i {
      CountPositiveGrows(dv, i, j - 1);
    }
  }

  /** The entry that carries number `n` is the one PositiveIndex names. */
  lemma PositiveIndexUnique(dv: DirectVoters, n: int, k: nat)
    requires k < |dv| && dv[k].option == 0 && CountPositive(dv[..k]) == n - 1
    ensures 1 <= n <= CountPositive(dv)
    ensures k == PositiveIndex(dv, n)
  {
    CountPositiveGrows(dv, k, |dv|);
    assert dv[..|dv|] == dv;
    var p := PositiveIndex(dv, n);
    if p < k {
      CountPositiveGrows(dv, p, k);
    } else if p > k {
      CountPositiveGrows(dv, k, p);
    }
  }

  /** The positive entries around a positive direct voter at k. */
  lemma PositiveEntriesAround(dv: DirectVoters, k: nat)
    requires k < |dv| && dv[k].option == 0
    ensures PositiveEntries(dv)
         == PositiveEntries(dv[..k]) + [DirectEntry(dv[k].user)] + PositiveEntries(dv[k + 1..])
    ensures PositiveEntries(RemoveAt(dv, k)) == PositiveEntries(dv[..k]) + PositiveEntries(dv[k + 1..])
  {
    var a, b := dv[..k], dv[k + 1..];
    assert dv == (a + [dv[k]]) + b;
    assert PositiveEntries([dv[k]]) == [DirectEntry(dv[k].user)] by {
      assert [dv[k]][..0] == [];
    }
    PositiveEntriesAppend(a + [dv[k]], b);
    PositiveEntriesAppend(a, [dv[k]]);
    PositiveEntriesAppend(a, b);
  }

  /** Removing the n-th positive direct voter removes exactly entry n of the numbering. */
  lemma RemovePositiveEntry(dv: DirectVoters, ext: seq<Vote>, n: int)
    requires 1 <= n <= CountPositive(dv)
    ensures var k := PositiveIndex(dv, n);
      Combined(dv, ext)[n - 1] == DirectEntry(dv[k].user)
      && Combined(RemoveAt(dv, k), ext) == Combined(dv, ext)[..n - 1] + Combined(dv, ext)[n..]
  {
    var k := PositiveIndex(dv, n);
    PositiveEntriesAround(dv, k);
    var pa, pb, pe := PositiveEntries(dv[..k]), PositiveEntries(dv[k + 1..]), ExternalEntries(ext);
    assert Combined(dv, ext) == pa + [DirectEntry(dv[k].user)] + (pb + pe);
    assert Combined(RemoveAt(dv, k), ext) == pa + (pb + pe);
    SliceAround(pa, DirectEntry(dv[k].user), pb + pe);
  }

  /** Cutting out the element after a prefix. */
  lemma SliceAround<T>(a: seq<T>, x: T, b: seq<T>)
    ensures var c := a + [x] + b; c[|a|] == x && c[..|a|] + c[|a| + 1..] == a + b
  {
    var c := a + [x] + b;
    assert c[..|a|] == a;
    assert c[|a| + 1..] == b;
  }

  /** Removing external vote i removes exactly entry CountPositive(dv) + i + 1 of the numbering. */
  lemma RemoveExternalEntry(dv: DirectVoters, ext: seq<Vote>, i: nat)
    requires i < |ext|
    ensures var n := CountPositive(dv) + i + 1;
      Combined(dv, ext)[n - 1] == ExternalEntry(ext[i])
      && Combined(dv, RemoveAt(ext, i)) == Combined(dv, ext)[..n - 1] + Combined(dv, ext)[n..]
  {
    var n := CountPositive(dv) + i + 1;
    var c := Combined(dv, ext);
    var c' := Combined(dv, RemoveAt(ext, i));
    assert |c'| == |c| - 1;
    forall j | 0 <= j < |c'| ensures c'[j] == (c[..n - 1] + c[n..])[j] {
      if j >= n - 1 {
        assert c'[j] == ExternalEntry(RemoveAt(ext, i)[j - CountPositive(dv)]);
      }
    }
  }

  /** The positive direct count is the number of users whose chosen option is 0. */
  lemma {:induction false} PositiveCountIsVoterCount(dv: DirectVoters)
    requires UniqueUsers(dv)
    ensures CountPositive(dv) == |set u | u in ToMap(dv) && ToMap(dv)[u] == 0|
    decreases |dv|
  {
    var m := ToMap(dv);
    if dv != [] {
      var p := dv[..|dv| - 1];
      var last := dv[|dv| - 1];
      assert UniqueUsers(p);
      PositiveCountIsVoterCount(p);
      var mp := ToMap(p);
      ToMapKeys(p, last.user);
      assert last.user !in mp;
      var sp := set u | u in mp && mp[u] == 0;
      var s := set u | u in m && m[u] == 0;
      if last.option == 0 {
        assert s == sp + {last.user};
      } else {
        assert s == sp;
      }
    }
  }

  /** The latest external vote requested by `requesterId`, if any. */
  function LastIndexBy(ext: seq<Vote>, requesterId: int): (r: Option<nat>)
    ensures r.Some? ==> (r.value < |ext| && ext[r.value].requesterId == requesterId
                         && forall j :: r.value < j < |ext| ==> ext[j].requesterId != requesterId)
    ensures r.None? ==> forall j :: 0 <= j < |ext| ==> ext[j].requesterId != requesterId
    decreases |ext|
  {
    if ext == [] then None
    else if ext[|ext| - 1].requesterId == requesterId then Some(|ext| - 1)
    else LastIndexBy(ext[..|ext| - 1], requesterId)
  }
}
