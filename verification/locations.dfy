/**
 * The options of the location selector: the distinct non-empty `Ubication`
 * values of the catalog, sorted ascending.
 */
module Locations {
  import opened Wrappers
  import opened Text
  import opened Movies

  /** Some record of `movies` has location `u`. */
  predicate HasLocation(movies: seq<Movie>, u: string) {
    exists i | 0 <= i < |movies| :: movies[i].Ubication == Some(u)
  }

  /** Puts `x` into its place in an ascending list, unless it is already there. */
  function Insert(x: string, s: seq<string>): (r: seq<string>)
    requires StrictlyAscending(s)
    ensures StrictlyAscending(r)
    ensures forall y :: y in r <==> y in s || y == x
  {
    if s == [] then [x]
    else if x == s[0] then s
    else if Less(x, s[0]) then
      assert forall j :: 0 <= j < |s| ==> Less(x, s[j]) by {
        forall j | 0 < j < |s| ensures Less(x, s[j]) {
          LessTransitive(x, s[0], s[j]);
        }
      }
      [x] + s
    else
      LessTotal(x, s[0]);
      var rest := Insert(x, s[1..]);
      assert forall y :: y in rest ==> Less(s[0], y) by {
        forall y | y in rest ensures Less(s[0], y) {
          if y != x {
            var j :| 0 <= j < |s[1..]| && s[1..][j] == y;
            assert s[j + 1] == y;
          }
        }
      }
      assert forall y :: y in s ==> y == s[0] || y in s[1..] by {
        assert s == [s[0]] + s[1..];
      }
      [s[0]] + rest
  }

  /** The distinct non-empty locations of the catalog, sorted. */
  function LocationOptions(movies: seq<Movie>): (r: seq<string>)
    ensures StrictlyAscending(r)
    ensures forall u :: u in r <==> u != "" && HasLocation(movies, u)
  {
    if movies == [] then []
    else
      var rest := LocationOptions(movies[1..]);
      assert forall u :: HasLocation(movies, u) <==> movies[0].Ubication == Some(u) || HasLocation(movies[1..], u) by {
        forall u ensures HasLocation(movies, u) <==> movies[0].Ubication == Some(u) || HasLocation(movies[1..], u) {
          if HasLocation(movies[1..], u) {
            var i :| 0 <= i < |movies[1..]| && movies[1..][i].Ubication == Some(u);
            assert movies[i + 1].Ubication == Some(u);
          }
          if HasLocation(movies, u) && movies[0].Ubication != Some(u) {
            var i :| 0 <= i < |movies| && movies[i].Ubication == Some(u);
            assert movies[1..][i - 1].Ubication == Some(u);
          }
        }
      }
      match movies[0].Ubication
      case Some(u) => if u != "" then Insert(u, rest) else rest
      case None => rest
  }

  /** Two ascending lists with the same elements are the same list: the options do not depend on how they are built. */
  lemma {:induction false} AscendingIsUnique(a: seq<string>, b: seq<string>)
    requires StrictlyAscending(a) && StrictlyAscending(b)
    requires forall y :: y in a <==> y in b
    ensures a == b
  {
    if a != [] {
      assert a[0] in b;
    }
    if b != [] {
      assert b[0] in a;
    }
    if a != [] && b != [] {
      var i :| 0 <= i < |a| && a[i] == b[0];
      var j :| 0 <= j < |b| && b[j] == a[0];
      if i != 0 && j != 0 {
        LessAsymmetric(a[0], b[0]);
        assert false;
      }
      forall y ensures y in a[1..] <==> y in b[1..] {
        if y in a[1..] {
          var k :| 0 <= k < |a[1..]| && a[1..][k] == y;
          assert Less(a[0], a[k + 1]);
          LessIrreflexive(y);
          assert y in b;
          assert y != b[0];
        }
        if y in b[1..] {
          var k :| 0 <= k < |b[1..]| && b[1..][k] == y;
          assert Less(b[0], b[k + 1]);
          LessIrreflexive(y);
          assert y in a;
          assert y != a[0];
        }
      }
      AscendingIsUnique(a[1..], b[1..]);
      assert a == [a[0]] + a[1..] && b == [b[0]] + b[1..];
    }
  }

  /** No option repeats and none is empty. */
  lemma OptionsAreDistinct(movies: seq<Movie>)
    ensures forall i, j :: 0 <= i < j < |LocationOptions(movies)| ==> LocationOptions(movies)[i] != LocationOptions(movies)[j]
    ensures "" !in LocationOptions(movies)
  {
    var r := LocationOptions(movies);
    forall i, j | 0 <= i < j < |r| ensures r[i] != r[j] {
      LessIrreflexive(r[i]);
    }
  }
}
