/** Picking the elements of a list that are wanted, in the order of the list. */
module Lists {

  ghost predicate Increasing(numbers: seq<nat>) {
    forall i, j :: 0 <= i < j < |numbers| ==> numbers[i] < numbers[j]
  }

  /** `places` are the indices at which `wanted` holds, in order. */
  ghost predicate Places<T>(all: seq<T>, wanted: T -> bool, places: seq<nat>) {
    && Increasing(places)
    && (forall i :: 0 <= i < |places| ==> places[i] < |all|)
    && forall k :: 0 <= k < |all| ==> (k in places <==> wanted(all[k]))
  }

  /** `part` are the elements at `places`. */
  ghost predicate Stand<T>(all: seq<T>, places: seq<nat>, part: seq<T>) {
    |part| == |places| && forall i :: 0 <= i < |places| ==> places[i] < |all| && part[i] == all[places[i]]
  }

  /** `part` are the wanted elements, at `places`. */
  ghost predicate Picks<T>(all: seq<T>, wanted: T -> bool, places: seq<nat>, part: seq<T>) {
    Places(all, wanted, places) && Stand(all, places, part)
  }

  lemma PlacesMore<T>(all: seq<T>, wanted: T -> bool, places: seq<nat>)
    requires all != [] && Places(all[..|all| - 1], wanted, places)
    ensures var n := |all| - 1; Places(all, wanted, if wanted(all[n]) then places + [n] else places)
  {
    var n := |all| - 1;
    var init := all[..n];
    forall k | 0 <= k < |all|
      ensures k in places + [n] <==> k == n || k in places
      ensures k in places <==> k < n && wanted(all[k])
    {
      if k < n { assert init[k] == all[k]; }
    }
  }

  lemma PicksMore<T>(all: seq<T>, wanted: T -> bool, places: seq<nat>, part: seq<T>)
    requires all != [] && Picks(all[..|all| - 1], wanted, places, part)
    ensures var n := |all| - 1;
            if wanted(all[n]) then Picks(all, wanted, places + [n], part + [all[n]]) else Picks(all, wanted, places, part)
  {
    PlacesMore(all, wanted, places);
    StandMore(all, places, part);
  }

  lemma StandMore<T>(all: seq<T>, places: seq<nat>, part: seq<T>)
    requires all != [] && Stand(all[..|all| - 1], places, part)
    ensures Stand(all, places, part) && Stand(all, places + [|all| - 1], part + [all[|all| - 1]])
  {
    forall i | 0 <= i < |places| ensures part[i] == all[places[i]] { assert part[i] == all[..|all| - 1][places[i]]; }
  }

  lemma {:induction false} IncreasingUnique(one: seq<nat>, two: seq<nat>)
    requires Increasing(one) && Increasing(two) && forall n :: n in one <==> n in two
    ensures one == two
    decreases |one|
  {
    EmptyTogether(one, two);
    if one != [] {
      var a, b := one[|one| - 1], two[|two| - 1];
      SameGreatest(one, two);
      var i, j := one[..|one| - 1], two[..|two| - 1];
      forall n ensures n in i <==> n in j {
        InitMembers(one, n);
        InitMembers(two, n);
      }
      IncreasingUnique(i, j);
      assert one == i + [a] && two == j + [b];
    }
  }

  lemma EmptyTogether(one: seq<nat>, two: seq<nat>)
    requires forall n :: n in one <==> n in two
    ensures one == [] <==> two == []
  {
    if one != [] { assert one[0] in one; }
    if two != [] { assert two[0] in two; }
  }

  lemma SameGreatest(one: seq<nat>, two: seq<nat>)
    requires Increasing(one) && Increasing(two) && (forall n :: n in one <==> n in two) && one != [] && two != []
    ensures one[|one| - 1] == two[|two| - 1]
  {
    var a, b := one[|one| - 1], two[|two| - 1];
    assert a in one && b in two;
    var i :| 0 <= i < |two| && two[i] == a;
    var j :| 0 <= j < |one| && one[j] == b;
  }

  lemma InitMembers(s: seq<nat>, n: nat)
    requires Increasing(s) && s != []
    ensures n in s[..|s| - 1] <==> n in s && n != s[|s| - 1]
  {
  }

  /** There is only one way to pick. */
  lemma PicksUnique<T>(all: seq<T>, wanted: T -> bool, ones: seq<nat>, one: seq<T>, twos: seq<nat>, two: seq<T>)
    requires Picks(all, wanted, ones, one) && Picks(all, wanted, twos, two)
    ensures one == two
  {
    forall n ensures n in ones <==> n in twos {
      if n in ones {
        var i :| 0 <= i < |ones| && ones[i] == n;
        assert n < |all|;
      }
      if n in twos {
        var i :| 0 <= i < |twos| && twos[i] == n;
        assert n < |all|;
      }
    }
    IncreasingUnique(ones, twos);
  }

  function Shifted(places: seq<nat>): (r: seq<nat>)
    ensures |r| == |places| && forall i :: 0 <= i < |r| ==> r[i] == places[i] + 1
  {
    seq(|places|, i requires 0 <= i < |places| => places[i] + 1)
  }

  lemma ShiftedMembers(places: seq<nat>)
    ensures forall k :: k in Shifted(places) <==> k > 0 && k - 1 in places
  {
    forall k ensures k in Shifted(places) <==> k > 0 && k - 1 in places {
      if k > 0 && k - 1 in places {
        var i :| 0 <= i < |places| && places[i] == k - 1;
        assert Shifted(places)[i] == k;
      }
      if k in Shifted(places) {
        var i :| 0 <= i < |places| && Shifted(places)[i] == k;
        assert places[i] in places;
      }
    }
  }

  lemma PlacesFront<T>(all: seq<T>, wanted: T -> bool, places: seq<nat>)
    requires all != [] && Places(all[1..], wanted, places)
    ensures Places(all, wanted, if wanted(all[0]) then [0] + Shifted(places) else Shifted(places))
  {
    var later := Shifted(places);
    ShiftedMembers(places);
    assert forall k :: k in [0] + later <==> k == 0 || k in later;
    forall k | 0 < k < |all| ensures k in later <==> wanted(all[k]) { assert all[1..][k - 1] == all[k]; }
  }

  /** Picking from the front. */
  lemma PicksFront<T>(all: seq<T>, wanted: T -> bool, places: seq<nat>, part: seq<T>)
    requires all != [] && Picks(all[1..], wanted, places, part)
    ensures if wanted(all[0]) then Picks(all, wanted, [0] + Shifted(places), [all[0]] + part)
            else Picks(all, wanted, Shifted(places), part)
  {
    PlacesFront(all, wanted, places);
    PartFront(all, places, part);
  }

  lemma PartFront<T>(all: seq<T>, places: seq<nat>, part: seq<T>)
    requires all != [] && Stand(all[1..], places, part)
    ensures Stand(all, Shifted(places), part) && Stand(all, [0] + Shifted(places), [all[0]] + part)
  {
    forall i | 0 <= i < |places| ensures part[i] == all[Shifted(places)[i]] { assert part[i] == all[1..][places[i]]; }
  }

  /** `list` has one element for each wanted one of `all`, in order, which fits it. */
  ghost predicate Chosen<S, T>(all: seq<S>, wanted: S -> bool, fits: (S, T) -> bool, list: seq<T>) {
    if all == [] then list == []
    else
      var n, k := |all| - 1, |list| - 1;
      if wanted(all[n]) then list != [] && fits(all[n], list[k]) && Chosen(all[..n], wanted, fits, list[..k])
      else Chosen(all[..n], wanted, fits, list)
  }

  /** The places of the wanted elements. */
  lemma {:induction false} ChosenPlaces<S, T>(all: seq<S>, wanted: S -> bool, fits: (S, T) -> bool, list: seq<T>) returns (places: seq<nat>)
    requires Chosen(all, wanted, fits, list)
    ensures Places(all, wanted, places) && |places| == |list|
    ensures forall k :: 0 <= k < |places| ==> fits(all[places[k]], list[k])
    decreases |all|
  {
    if all == [] {
      places := [];
    } else {
      var n, k := |all| - 1, |list| - 1;
      if wanted(all[n]) {
        places := ChosenPlaces(all[..n], wanted, fits, list[..k]);
        FitsMore(all, fits, list, places);
        PlacesMore(all, wanted, places);
        places := places + [n];
      } else {
        places := ChosenPlaces(all[..n], wanted, fits, list);
        PlacesMore(all, wanted, places);
        assert forall i :: 0 <= i < |places| ==> all[..n][places[i]] == all[places[i]];
      }
    }
  }

  lemma FitsMore<S, T>(all: seq<S>, fits: (S, T) -> bool, list: seq<T>, places: seq<nat>)
    requires all != [] && list != [] && |places| == |list| - 1 && fits(all[|all| - 1], list[|list| - 1])
    requires forall k :: 0 <= k < |places| ==> places[k] < |all| - 1 && fits(all[..|all| - 1][places[k]], list[..|list| - 1][k])
    ensures var more := places + [|all| - 1];
            forall k :: 0 <= k < |more| ==> more[k] < |all| && fits(all[more[k]], list[k])
  {
    forall k | 0 <= k < |places| ensures fits(all[places[k]], list[k]) {
      assert all[..|all| - 1][places[k]] == all[places[k]] && list[..|list| - 1][k] == list[k];
    }
  }

  lemma ChosenMore<S, T>(all: seq<S>, wanted: S -> bool, fits: (S, T) -> bool, list: seq<T>, x: S, y: T)
    requires Chosen(all, wanted, fits, list) && wanted(x) && fits(x, y)
    ensures Chosen(all + [x], wanted, fits, list + [y])
  {
    assert (all + [x])[..|all|] == all && (list + [y])[..|list|] == list;
  }

  lemma ChosenSame<S, T>(all: seq<S>, wanted: S -> bool, fits: (S, T) -> bool, list: seq<T>, x: S)
    requires Chosen(all, wanted, fits, list) && !wanted(x)
    ensures Chosen(all + [x], wanted, fits, list)
  {
    assert (all + [x])[..|all|] == all;
  }
}
