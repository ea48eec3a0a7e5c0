/**
 * The leaderboard: the fetched profiles are re-sorted on the client by XP,
 * highest first, and each position gets a label (three medals, then "#n").
 */
module Ranking {
  import opened Text

  datatype User = User(firstName: string, lastName: string, xp: nat)

  /** One rendered leaderboard row. */
  datatype Row = Row(medal: string, user: User)

  /** Highest XP first. */
  ghost predicate NonIncreasing(users: seq<User>) {
    forall i, j :: 0 <= i < j < |users| ==> users[i].xp >= users[j].xp
  }

  /** The users holding exactly `v` XP, in their order of appearance. */
  function WithXp(users: seq<User>, v: nat): seq<User>
    decreases |users|
  {
    if |users| == 0 then []
    else (if users[0].xp == v then [users[0]] else []) + WithXp(users[1..], v)
  }

  /** Inserts `u` in front of the first user with no more XP than it has, so
      that `u` precedes every user it ties with. */
  function Insert(u: User, sorted: seq<User>): (r: seq<User>)
    ensures |r| == |sorted| + 1
    decreases |sorted|
  {
    if |sorted| == 0 then [u]
    else if sorted[0].xp <= u.xp then [u] + sorted
    else [sorted[0]] + Insert(u, sorted[1..])
  }

  /** Inserting adds exactly `u`: the result is a permutation of `sorted` plus `u`. */
  lemma {:induction false} InsertPermutes(u: User, sorted: seq<User>)
    ensures multiset(Insert(u, sorted)) == multiset(sorted) + multiset{u}
    decreases |sorted|
  {
    if |sorted| > 0 && sorted[0].xp > u.xp {
      InsertPermutes(u, sorted[1..]);
      assert sorted == [sorted[0]] + sorted[1..];
    }
  }

  /** The stable descending sort `usuarios.sort((a, b) => b.xp - a.xp)`. */
  function SortByXp(users: seq<User>): (r: seq<User>)
    ensures |r| == |users|
    ensures multiset(r) == multiset(users)
    ensures NonIncreasing(r)
    decreases |users|
  {
    if |users| == 0 then []
    else
      assert users == [users[0]] + users[1..];
      var rest := SortByXp(users[1..]);
      InsertPermutes(users[0], rest);
      InsertKeepsOrder(users[0], rest);
      Insert(users[0], rest)
  }

  /** Inserting into a list sorted highest first keeps it sorted. */
  lemma {:induction false} InsertKeepsOrder(u: User, sorted: seq<User>)
    requires NonIncreasing(sorted)
    ensures NonIncreasing(Insert(u, sorted))
    decreases |sorted|
  {
    if |sorted| > 0 && sorted[0].xp > u.xp {
      var tail := Insert(u, sorted[1..]);
      InsertKeepsOrder(u, sorted[1..]);
      InsertPermutes(u, sorted[1..]);
      forall j | 0 <= j < |tail|
        ensures sorted[0].xp >= tail[j].xp
      {
        assert tail[j] in multiset(tail);
        assert tail[j] in multiset(sorted[1..]) || tail[j] == u;
        if tail[j] != u {
          var k :| 0 <= k < |sorted[1..]| && sorted[1..][k] == tail[j];
          assert sorted[k + 1] == tail[j];
        }
      }
    }
  }

  /** The users holding `v` XP among `[u]`. */
  function Own(u: User, v: nat): seq<User> {
    if u.xp == v then [u] else []
  }

  /** Putting `x` in front adds it to the users holding its XP and to no other group. */
  lemma Cons(x: User, rest: seq<User>, v: nat)
    ensures WithXp([x] + rest, v) == Own(x, v) + WithXp(rest, v)
  {
  }

  /** Inserting `u` puts it in front of every user it ties with. */
  lemma {:induction false} InsertStable(u: User, sorted: seq<User>, v: nat)
    ensures WithXp(Insert(u, sorted), v) == Own(u, v) + WithXp(sorted, v)
    decreases |sorted|
  {
    if |sorted| == 0 || sorted[0].xp <= u.xp {
      assert Insert(u, sorted) == [u] + sorted;
      Cons(u, sorted, v);
    } else {
      InsertStable(u, sorted[1..], v);
      PassOver(u, sorted, v);
    }
  }

  /** The step of `InsertStable` where `u` moves past a user with more XP. */
  lemma PassOver(u: User, sorted: seq<User>, v: nat)
    requires |sorted| > 0 && sorted[0].xp > u.xp
    requires WithXp(Insert(u, sorted[1..]), v) == Own(u, v) + WithXp(sorted[1..], v)
    ensures WithXp(Insert(u, sorted), v) == Own(u, v) + WithXp(sorted, v)
  {
    var head, rest := sorted[0], sorted[1..];
    var tail := Insert(u, rest);
    assert Insert(u, sorted) == [head] + tail;
    Cons(head, tail, v);
    assert sorted == [head] + rest;
    Cons(head, rest, v);
    SwapPastEmpty(Own(head, v), Own(u, v), WithXp(rest, v));
  }

  /** A local sequence fact used by the stability proof: two pieces of which
      one is empty can be swapped. */
  lemma SwapPastEmpty<T>(a: seq<T>, b: seq<T>, c: seq<T>)
    requires a == [] || b == []
    ensures a + (b + c) == b + (a + c)
  {
  }

  /** The sort is stable: users with the same XP keep their fetched order. */
  lemma {:induction false} SortStable(users: seq<User>, v: nat)
    ensures WithXp(SortByXp(users), v) == WithXp(users, v)
    decreases |users|
  {
    if |users| > 0 {
      SortStable(users[1..], v);
      InsertStable(users[0], SortByXp(users[1..]), v);
    }
  }

  /** The medals of the first three positions. */
  const Gold: string := "\U{1F947}"
  const Silver: string := "\U{1F948}"
  const Bronze: string := "\U{1F949}"

  /** The label of position `index` (counted from 0): gold, silver and bronze
      medals for the first three, "#" and the 1-based position after that. */
  function Label(index: nat): (medal: string)
    ensures index == 0 ==> medal == Gold
    ensures index == 1 ==> medal == Silver
    ensures index == 2 ==> medal == Bronze
    ensures index >= 3 ==>
      |medal| >= 2 && medal[0] == '#' && IsDigits(medal[1..]) && DigitsValue(medal[1..]) == index + 1
    ensures index >= 3 ==> medal[1] != '0'
  {
    NatToStringRoundTrip(index + 1);
    NatToStringZero(index + 1);
    if index == 0 then Gold
    else if index == 1 then Silver
    else if index == 2 then Bronze
    else "#" + NatToString(index + 1)
  }

  /** No two positions share a label. */
  lemma LabelInjective(i: nat, j: nat)
    ensures Label(i) == Label(j) ==> i == j
  {
    if Label(i) == Label(j) && i >= 3 && j >= 3 {
      assert Label(i)[1..] == NatToString(i + 1);
      assert Label(j)[1..] == NatToString(j + 1);
      NatToStringInjective(i + 1, j + 1);
    }
  }

  /** The users of the rows, top to bottom. */
  function Shown(rows: seq<Row>): seq<User> {
    seq(|rows|, i requires 0 <= i < |rows| => rows[i].user)
  }

  /** `cargarRanking`: the rows in display order. */
  function RankingRows(users: seq<User>): (rows: seq<Row>)
    ensures |rows| == |users|
    ensures forall i :: 0 <= i < |rows| ==> rows[i].medal == Label(i)
    ensures forall i, j :: 0 <= i < j < |rows| ==> rows[i].user.xp >= rows[j].user.xp
    ensures multiset(Shown(rows)) == multiset(users)
    ensures forall i :: 0 <= i < |rows| ==> rows[i].user == SortByXp(users)[i]
  {
    var sorted := SortByXp(users);
    var rows := seq(|sorted|, i requires 0 <= i < |sorted| => Row(Label(i), sorted[i]));
    assert Shown(rows) == sorted;
    rows
  }

  /** The board is stable too: users with the same XP are shown in their fetched order. */
  lemma RankingRowsStable(users: seq<User>, v: nat)
    ensures WithXp(Shown(RankingRows(users)), v) == WithXp(users, v)
  {
    assert Shown(RankingRows(users)) == SortByXp(users);
    SortStable(users, v);
  }

  /** Users with 10, 50 and 30 XP are sorted as 50, 30, 10. */
  lemma SortExample(a: User, b: User, c: User)
    requires a.xp == 10 && b.xp == 50 && c.xp == 30
    ensures SortByXp([a, b, c]) == [b, c, a]
  {
    assert [a, b, c][1..] == [b, c];
    assert [b, c][1..] == [c];
    assert [c][1..] == [];
    assert SortByXp([c]) == [c];
    assert SortByXp([b, c]) == Insert(b, [c]) == [b, c];
    assert Insert(a, [c]) == [c, a];
    assert Insert(a, [b, c]) == [b, c, a];
  }

  /** ... and labelled gold, silver and bronze. */
  lemma RankingExample(a: User, b: User, c: User)
    requires a.xp == 10 && b.xp == 50 && c.xp == 30
    ensures RankingRows([a, b, c]) == [Row(Gold, b), Row(Silver, c), Row(Bronze, a)]
  {
  }
}
