/** Rarest-first selection: the list of tied pieces the scan keeps, which of them the random draws settle on, and why
    that choice is uniform. */
module Selection {
  import opened CoordinatorState

  /** The candidates below upto that share the lowest availability, in index order. */
  function Tied(s: State, have: set<int>, upto: nat): seq<int>
    requires upto <= |s.pieces| == |s.availability|
    ensures forall k :: 0 <= k < |Tied(s, have, upto)| ==> 0 <= Tied(s, have, upto)[k] < upto
  {
    if upto == 0 then []
    else
      var rest := Tied(s, have, upto - 1);
      var i := upto - 1;
      if s.pieces[i] != Missing || i !in have then rest
      else if rest == [] || s.availability[i] < s.availability[rest[0]] then [i]
      else if s.availability[i] == s.availability[rest[0]] then rest + [i]
      else rest
  }

  /** The k-th tied piece replaces the choice when its draw, one of 0..k, is 0. */
  function Winner(draws: seq<nat>): (w: nat)
    requires draws != []
    ensures w < |draws|
  {
    if |draws| == 1 || draws[|draws| - 1] == 0 then |draws| - 1 else Winner(draws[..|draws| - 1])
  }

  /** The bounded draws made for a list of ties, given the random number drawn at each piece. */
  function Draws(ties: seq<int>, random: int -> nat): seq<nat> {
    seq(|ties|, k requires 0 <= k < |ties| => random(ties[k]) % (k + 1))
  }

  function Chosen(ties: seq<int>, random: int -> nat): int {
    if ties == [] then -1 else ties[Winner(Draws(ties, random))]
  }

  lemma {:induction false} NothingChosen(random: int -> nat)
    ensures Chosen([], random) == -1
  {
  }

  lemma {:induction false} ChosenAppend(ties: seq<int>, i: int, random: int -> nat)
    ensures Chosen(ties + [i], random) ==
      if ties == [] || random(i) % (|ties| + 1) == 0 then i else Chosen(ties, random)
  {
    var draws := Draws(ties + [i], random);
    assert draws[..|ties|] == Draws(ties, random);
  }

  ghost predicate RarestBelow(s: State, have: set<int>, upto: nat, i: int)
    requires upto <= |s.pieces| == |s.availability|
  {
    && 0 <= i < upto && i in Candidates(s, have)
    && forall j :: 0 <= j < upto && j in Candidates(s, have) ==> s.availability[i] <= s.availability[j]
  }

  /** These are the rarest of the candidates below upto, in order and each once. */
  ghost predicate AreTheRarest(s: State, have: set<int>, upto: nat, ties: seq<int>)
    requires upto <= |s.pieces| == |s.availability|
  {
    && (forall i :: i in ties <==> RarestBelow(s, have, upto, i))
    && (forall j, k :: 0 <= j < k < |ties| ==> ties[j] < ties[k])
    && (ties == [] ==> forall j :: 0 <= j < upto ==> j !in Candidates(s, have))
  }

  /** The scan keeps exactly the rarest pieces, each once. */
  lemma {:induction false} TiedAreTheRarest(s: State, have: set<int>, upto: nat)
    requires upto <= |s.pieces| == |s.availability|
    ensures AreTheRarest(s, have, upto, Tied(s, have, upto))
  {
    hide AreTheRarest;
    if upto == 0 {
      NothingIsRarest(s, have);
    } else {
      TiedAreTheRarest(s, have, upto - 1);
      OneMoreScanned(s, have, upto - 1, Tied(s, have, upto - 1));
    }
  }

  lemma {:induction false} NothingIsRarest(s: State, have: set<int>)
    requires |s.pieces| == |s.availability|
    ensures AreTheRarest(s, have, 0, [])
  {
  }

  lemma {:induction false} OneMoreScanned(s: State, have: set<int>, i: nat, rest: seq<int>)
    requires i < |s.pieces| == |s.availability| && AreTheRarest(s, have, i, rest)
    ensures rest != [] ==> 0 <= rest[0] < i
    ensures AreTheRarest(s, have, i + 1,
      if s.pieces[i] != Missing || i !in have then rest
      else if rest == [] || s.availability[i] < s.availability[rest[0]] then [i]
      else if s.availability[i] == s.availability[rest[0]] then rest + [i]
      else rest)
  {
    assert i in Candidates(s, have) <==> s.pieces[i] == Missing && i in have;
    hide Candidates;
    if rest != [] { assert rest[0] in rest; }
    if i in Candidates(s, have) && rest != [] && s.availability[i] == s.availability[rest[0]] {
      OneMoreTie(s, have, i, rest);
    }
  }

  lemma {:induction false} OneMoreTie(s: State, have: set<int>, i: nat, rest: seq<int>)
    requires i < |s.pieces| == |s.availability| && AreTheRarest(s, have, i, rest) && i in Candidates(s, have)
    requires rest != [] && rest[0] in rest && s.availability[i] == s.availability[rest[0]]
    ensures AreTheRarest(s, have, i + 1, rest + [i])
  {
    hide Candidates;
    forall k | 0 <= k < |rest| ensures rest[k] < i { assert rest[k] in rest; }
    assert forall x :: x in rest + [i] <==> x in rest || x == i;
  }

  /** A piece is chosen exactly when the peer holds a missing piece, and then it is one of the rarest. */
  lemma {:induction false} ChosenIsRarest(s: State, have: set<int>, random: int -> nat)
    requires |s.pieces| == |s.availability|
    ensures var chosen := Chosen(Tied(s, have, |s.pieces|), random);
      && (chosen == -1 <==> Candidates(s, have) == {})
      && (chosen != -1 ==> chosen in Rarest(s, have))
  {
    var ties := Tied(s, have, |s.pieces|);
    TiedAreTheRarest(s, have, |s.pieces|);
    if ties == [] {
      assert Candidates(s, have) == {};
    } else {
      var chosen := Chosen(ties, random);
      assert chosen in ties && chosen in Candidates(s, have);
    }
  }

  // ----- uniformity -----

  ghost function Factorial(n: nat): nat { if n == 0 then 1 else n * Factorial(n - 1) }

  ghost function Extended(draws: set<seq<nat>>, lo: nat, hi: nat): set<seq<nat>> {
    set d, x: nat | d in draws && lo <= x < hi :: d + [x]
  }

  lemma {:induction false} ExtendedHas(draws: set<seq<nat>>, lo: nat, hi: nat, d: seq<nat>)
    ensures d in Extended(draws, lo, hi) <==> d != [] && d[..|d| - 1] in draws && lo <= d[|d| - 1] < hi
  {
    if d in Extended(draws, lo, hi) {
      var e: seq<nat>, x: nat :| e in draws && lo <= x < hi && d == e + [x];
      assert d[..|d| - 1] == e;
    }
    if d != [] { assert d == d[..|d| - 1] + [d[|d| - 1]]; }
  }

  /** Every sequence of draws that t ties can make: the k-th is one of 0..k. */
  ghost function AllDraws(t: nat): set<seq<nat>> {
    if t == 0 then {[]} else Extended(AllDraws(t - 1), 0, t)
  }

  lemma {:induction false} AllDrawsExactly(t: nat, d: seq<nat>)
    ensures d in AllDraws(t) <==> |d| == t && forall k :: 0 <= k < t ==> d[k] <= k
  {
    if t > 0 {
      ExtendedHas(AllDraws(t - 1), 0, t, d);
      if d != [] { AllDrawsExactly(t - 1, d[..|d| - 1]); }
    }
  }

  ghost function EndingAt(t: nat, winner: nat): set<seq<nat>> {
    set d | d in AllDraws(t) && d != [] && Winner(d) == winner
  }

  lemma {:induction false} DisjointUnionSize<T>(a: set<T>, b: set<T>, all: set<T>)
    requires forall x :: (x in all <==> x in a || x in b) && !(x in a && x in b)
    ensures |all| == |a| + |b|
  {
    assert all == a + b;
  }

  lemma {:induction false} ExtendedByOne(draws: set<seq<nat>>, x: nat)
    ensures |Extended(draws, x, x + 1)| == |draws|
  {
    hide Extended;
    var all := Extended(draws, x, x + 1);
    if draws == {} {
      forall e: seq<nat> ensures e !in all { ExtendedHas(draws, x, x + 1, e); }
      assert all == {};
    } else {
      var d :| d in draws;
      var rest, longer := Extended(draws - {d}, x, x + 1), d + [x];
      ExtendedByOne(draws - {d}, x);
      assert longer[..|d|] == d;
      forall e: seq<nat> ensures (e in all <==> e in rest || e in {longer}) && !(e in rest && e in {longer}) {
        ExtendedHas(draws, x, x + 1, e);
        ExtendedHas(draws - {d}, x, x + 1, e);
        if e != [] { assert e == e[..|e| - 1] + [e[|e| - 1]]; }
      }
      DisjointUnionSize(rest, {longer}, all);
    }
  }

  lemma {:induction false} ExtendedSplit(draws: set<seq<nat>>, lo: nat, hi: nat)
    requires lo < hi
    ensures |Extended(draws, lo, hi)| == |Extended(draws, lo, hi - 1)| + |Extended(draws, hi - 1, hi)|
  {
    hide Extended;
    var all, before, last := Extended(draws, lo, hi), Extended(draws, lo, hi - 1), Extended(draws, hi - 1, hi);
    forall d: seq<nat> ensures (d in all <==> d in before || d in last) && !(d in before && d in last) {
      ExtendedHas(draws, lo, hi, d);
      ExtendedHas(draws, lo, hi - 1, d);
      ExtendedHas(draws, hi - 1, hi, d);
    }
    DisjointUnionSize(before, last, all);
  }

  lemma {:induction false} NothingExtended(draws: set<seq<nat>>, lo: nat)
    ensures Extended(draws, lo, lo) == {}
  {
  }

  ghost function Times(a: nat, k: nat): nat { if k == 0 then 0 else Times(a, k - 1) + a }

  lemma {:induction false} TimesIsProduct(a: nat, k: nat)
    ensures Times(a, k) == a * k
  {
    if k > 0 {
      TimesIsProduct(a, k - 1);
      assert a * k == a * (k - 1) + a;
    }
  }

  lemma {:induction false} ExtendedSize(draws: set<seq<nat>>, lo: nat, width: nat)
    ensures |Extended(draws, lo, lo + width)| == Times(|draws|, width)
  {
    hide Extended;
    if width == 0 {
      NothingExtended(draws, lo);
    } else {
      ExtendedSize(draws, lo, width - 1);
      ExtendedByOne(draws, lo + width - 1);
      ExtendedSplit(draws, lo, lo + width);
    }
  }

  lemma {:induction false} TimesFactorial(n: nat)
    ensures Times(Factorial(n), n + 1) == Factorial(n + 1)
  {
    TimesIsProduct(Factorial(n), n + 1);
  }

  lemma {:induction false} CountAllDraws(t: nat)
    ensures |AllDraws(t)| == Factorial(t)
  {
    if t > 0 {
      CountAllDraws(t - 1);
      ExtendedSize(AllDraws(t - 1), 0, t);
      TimesFactorial(t - 1);
    }
  }

  /** The last tie wins exactly when its own draw is 0, whatever came before. */
  lemma {:induction false} LastWins(t: nat)
    requires t > 0
    ensures EndingAt(t, t - 1) == Extended(AllDraws(t - 1), 0, 1)
  {
    var ending, extended := EndingAt(t, t - 1), Extended(AllDraws(t - 1), 0, 1);
    forall d: seq<nat> ensures d in ending <==> d in extended {
      ExtendedHas(AllDraws(t - 1), 0, 1, d);
      ExtendedHas(AllDraws(t - 1), 0, t, d);
      if d != [] { AllDrawsExactly(t - 1, d[..|d| - 1]); }
    }
  }

  /** An earlier tie wins exactly when it already had and the last draw is not 0. */
  lemma {:induction false} EarlierWins(t: nat, winner: nat)
    requires winner < t - 1
    ensures EndingAt(t, winner) == Extended(EndingAt(t - 1, winner), 1, t)
  {
    var ending, extended := EndingAt(t, winner), Extended(EndingAt(t - 1, winner), 1, t);
    forall d: seq<nat> ensures d in ending <==> d in extended {
      ExtendedHas(EndingAt(t - 1, winner), 1, t, d);
      ExtendedHas(AllDraws(t - 1), 0, t, d);
      if d != [] { AllDrawsExactly(t - 1, d[..|d| - 1]); }
    }
  }

  /** The draws that t ties can make number t!, and exactly (t-1)! of them settle on each tie. */
  lemma {:induction false} ChoiceIsUniform(t: nat, winner: nat)
    requires winner < t
    ensures |AllDraws(t)| == Factorial(t)
    ensures |EndingAt(t, winner)| == Factorial(t - 1)
  {
    hide AllDraws, EndingAt, Extended, Times, Factorial;
    CountAllDraws(t);
    if winner == t - 1 {
      LastWins(t);
      ExtendedByOne(AllDraws(t - 1), 0);
      CountAllDraws(t - 1);
    } else {
      ChoiceIsUniform(t - 1, winner);
      EarlierWins(t, winner);
      ExtendedSize(EndingAt(t - 1, winner), 1, t - 1);
      TimesFactorial(t - 2);
    }
  }

  /** The draws that selection makes for a tie are among those counted. */
  lemma {:induction false} DrawsAreCounted(ties: seq<int>, random: int -> nat)
    ensures Draws(ties, random) in AllDraws(|ties|)
  {
    AllDrawsExactly(|ties|, Draws(ties, random));
  }
}
