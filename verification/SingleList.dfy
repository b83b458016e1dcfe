/** Singly linked lists through a map of next pointers, and the sequence each stands for. */
module SingleList {
  import opened RingList

  const NULL: int := -1

  ghost predicate ListFrom(next: LinkMap, x: int, s: seq<int>)
    decreases |s|
  {
    if s == [] then x == NULL else x == s[0] && x in next && x != NULL && ListFrom(next, next[x], s[1..])
  }

  lemma ListStart(next: LinkMap, x: int, s: seq<int>)
    requires ListFrom(next, x, s)
    ensures x == Right(s, 0, NULL) && (x == NULL <==> s == [])
  {
  }

  lemma {:induction false} ListAt(next: LinkMap, x: int, s: seq<int>, i: nat)
    requires ListFrom(next, x, s) && i < |s|
    ensures s[i] in next && s[i] != NULL && next[s[i]] == Right(s, i + 1, NULL) && ListFrom(next, s[i], s[i..])
    decreases |s|
  {
    if i > 0 {
      ListAt(next, next[x], s[1..], i - 1);
      assert s[1..][i - 1..] == s[i..];
    }
  }

  lemma {:induction false} ListKept(next: LinkMap, next': LinkMap, x: int, s: seq<int>)
    requires ListFrom(next, x, s)
    requires forall z {:trigger z in s} :: z in s && z in next ==> z in next' && next'[z] == next[z]
    ensures ListFrom(next', x, s)
    decreases |s|
  {
    if s != [] {
      assert s[0] in s && forall z :: z in s[1..] ==> z in s;
      ListKept(next, next', next[x], s[1..]);
    }
  }

  lemma ListPop(next: LinkMap, x: int, s: seq<int>)
    requires ListFrom(next, x, s) && x != NULL
    ensures s != [] && x == s[0] && x in next && ListFrom(next, next[x], s[1..])
  {
  }

  lemma ListPush(next: LinkMap, x: int, s: seq<int>, n: int)
    requires ListFrom(next, x, s) && n !in s && n != NULL
    ensures ListFrom(next[n := x], n, [n] + s)
  {
    ListKept(next, next[n := x], x, s);
    assert ([n] + s)[1..] == s;
  }

  lemma {:induction false} ListInsert(next: LinkMap, x: int, s: seq<int>, i: nat, n: int)
    requires ListFrom(next, x, s) && i <= |s| && n !in s && NoDup(s) && n != NULL
    ensures var n1 := next[n := Right(s, i, NULL)];
            && (i == 0 ==> ListFrom(n1, n, Insert(s, 0, n)))
            && (i > 0 ==> ListFrom(n1[s[i - 1] := n], x, Insert(s, i, n)))
    decreases |s|
  {
    var n1 := next[n := Right(s, i, NULL)];
    var t := Insert(s, i, n);
    if i == 0 {
      ListKept(next, n1, x, s);
      assert t[1..] == s;
    } else {
      var n2 := n1[s[i - 1] := n];
      assert t[1..] == Insert(s[1..], i - 1, n);
      if i == 1 {
        ListKept(next, n2, next[x], s[1..]);
        assert t[2..] == s[1..] && t[1..][1..] == t[2..];
        assert ListFrom(n2, n, t[1..]);
      } else {
        ListInsert(next, next[x], s[1..], i - 1, n);
      }
    }
  }

  lemma {:induction false} ListRemove(next: LinkMap, x: int, s: seq<int>, i: nat)
    requires ListFrom(next, x, s) && i < |s| && NoDup(s)
    ensures s[i] in next
    ensures i == 0 ==> ListFrom(next, next[s[0]], Without(s, 0))
    ensures i > 0 ==> ListFrom(next[s[i - 1] := next[s[i]]], x, Without(s, i))
    decreases |s|
  {
    var t := Without(s, i);
    ListAt(next, x, s, i);
    if i == 0 {
      assert t == s[1..];
    } else {
      var n1 := next[s[i - 1] := next[s[i]]];
      assert t[1..] == Without(s[1..], i - 1);
      if i == 1 {
        ListAt(next, x, s, 1);
        assert s[1..][1..] == t[1..];
        ListKept(next, n1, next[s[1]], t[1..]);
      } else {
        ListRemove(next, next[x], s[1..], i - 1);
      }
    }
  }
}
