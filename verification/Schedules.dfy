/** The order in which the critical sections of two concurrent calls run. */
module Schedules {
  /** How many sections of a call have run; each element of a schedule is one section of that call. */
  ghost function Moves(s: seq<bool>, who: bool): nat {
    if s == [] then 0 else Moves(s[..|s| - 1], who) + if s[|s| - 1] == who then 1 else 0
  }

  /** The m-th section of a call comes before the n-th of the other: at some point the one has run and
      the other has not. */
  ghost predicate Precedes(s: seq<bool>, who: bool, m: nat, n: nat) {
    s != [] && (Precedes(s[..|s| - 1], who, m, n) || (Moves(s, who) >= m && Moves(s, !who) < n))
  }

  lemma OneMoreMove(s: seq<bool>, who: bool)
    ensures Moves(s + [who], who) == Moves(s, who) + 1 && Moves(s + [who], !who) == Moves(s, !who)
  {
    var s' := s + [who];
    assert s'[..|s'| - 1] == s;
  }

  lemma PrecedesOneMore(s: seq<bool>, w: bool, who: bool, m: nat, n: nat)
    ensures Precedes(s + [w], who, m, n) <==>
            Precedes(s, who, m, n) || (Moves(s + [w], who) >= m && Moves(s + [w], !who) < n)
  {
    var s' := s + [w];
    assert s'[..|s'| - 1] == s;
  }

  lemma {:induction false} PrecedesFacts(s: seq<bool>, who: bool, m: nat, n: nat)
    ensures Precedes(s, who, m, n) ==> Moves(s, who) >= m
    ensures m > 0 && Moves(s, who) >= m && Moves(s, !who) < n ==> Precedes(s, who, m, n)
  {
    if s != [] {
      PrecedesFacts(s[..|s| - 1], who, m, n);
    }
  }

  /** Of two sections at most one comes before the other, and one does once either has run. */
  lemma {:induction false} OneOrder(s: seq<bool>, who: bool, m: nat, n: nat)
    requires m > 0 && n > 0
    ensures !(Precedes(s, who, m, n) && Precedes(s, !who, n, m))
    ensures Moves(s, who) >= m || Moves(s, !who) >= n ==> Precedes(s, who, m, n) || Precedes(s, !who, n, m)
  {
    if s != [] {
      var init, w := s[..|s| - 1], s[|s| - 1];
      OneOrder(init, who, m, n);
      PrecedesFacts(init, who, m, n);
      PrecedesFacts(init, !who, n, m);
      OneMoreMove(init, w);
      assert s == init + [w];
    }
  }

  /** Earlier sections of the one and later ones of the other keep the order. */
  lemma {:induction false} OrderWidens(s: seq<bool>, who: bool, m: nat, n: nat, m': nat, n': nat)
    requires Precedes(s, who, m, n) && m' <= m && n <= n'
    ensures Precedes(s, who, m', n')
  {
    if Precedes(s[..|s| - 1], who, m, n) {
      OrderWidens(s[..|s| - 1], who, m, n, m', n');
    }
  }

  /** Both calls, of four sections each, ran to their end. */
  ghost predicate Complete(s: seq<bool>) {
    Moves(s, true) >= 4 && Moves(s, false) >= 4
  }
}
