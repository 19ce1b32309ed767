/** Lexicographic order on strings, and sorting by it. */
module Text {

  predicate AtMost(a: string, b: string) {
    a == [] || (b != [] && (a[0] < b[0] || (a[0] == b[0] && AtMost(a[1..], b[1..]))))
  }

  lemma {:induction false} AtMostTotal(a: string, b: string)
    ensures AtMost(a, b) || AtMost(b, a)
    ensures AtMost(a, b) && AtMost(b, a) ==> a == b
  {
    if a != [] && b != [] && a[0] == b[0] {
      AtMostTotal(a[1..], b[1..]);
      assert a == [a[0]] + a[1..] && b == [b[0]] + b[1..];
    }
  }

  /** One string is at most another if it begins it, or is smaller in the first character in which they differ. */
  lemma {:induction false} AtMostMeans(a: string, b: string)
    ensures AtMost(a, b) <==>
      || a <= b
      || exists i :: 0 <= i < |a| && i < |b| && a[..i] == b[..i] && a[i] < b[i]
  {
    if a != [] && b != [] {
      AtMostMeans(a[1..], b[1..]);
      if a[0] == b[0] {
        if a[1..] <= b[1..] { assert a <= b; }
        if i :| 0 <= i < |a[1..]| && i < |b[1..]| && a[1..][..i] == b[1..][..i] && a[1..][i] < b[1..][i] {
          assert a[..i + 1] == [a[0]] + a[1..][..i] && b[..i + 1] == [b[0]] + b[1..][..i];
          assert a[i + 1] < b[i + 1];
        }
        if a <= b { assert a[1..] <= b[1..]; }
        if i :| 0 <= i < |a| && i < |b| && a[..i] == b[..i] && a[i] < b[i] {
          assert a[1..][..i - 1] == a[..i][1..] && b[1..][..i - 1] == b[..i][1..];
          assert a[1..][i - 1] < b[1..][i - 1];
        }
      } else {
        assert a[..0] == b[..0];
        if i :| 0 <= i < |a| && i < |b| && a[..i] == b[..i] && a[i] < b[i] {
          if i > 0 { assert a[..i][0] == b[..i][0]; }
        }
      }
    }
  }

  lemma {:induction false} AtMostTransitive(a: string, b: string, c: string)
    requires AtMost(a, b) && AtMost(b, c)
    ensures AtMost(a, c)
  {
    if a != [] && a[0] == b[0] == c[0] { AtMostTransitive(a[1..], b[1..], c[1..]); }
  }

  function Take(s: string, n: nat): string { if |s| <= n then s else s[..n] }

  /** Cutting strings to a common length keeps their order. */
  lemma {:induction false} TakeMonotone(a: string, b: string, n: nat)
    requires AtMost(a, b)
    ensures AtMost(Take(a, n), Take(b, n))
  {
    if a != [] && n > 0 && a[0] == b[0] {
      TakeMonotone(a[1..], b[1..], n - 1);
      assert Take(a, n)[1..] == Take(a[1..], n - 1);
      assert Take(b, n)[1..] == Take(b[1..], n - 1);
    }
  }

  ghost predicate Sorted(names: seq<string>) {
    forall i, j | 0 <= i < j < |names| :: AtMost(names[i], names[j])
  }

  function Insert(name: string, names: seq<string>): seq<string> {
    if names == [] then [name]
    else if AtMost(name, names[0]) then [name] + names
    else [names[0]] + Insert(name, names[1..])
  }

  function Sort(names: seq<string>): seq<string> {
    if names == [] then [] else Insert(names[0], Sort(names[1..]))
  }

  ghost predicate Distinct(names: seq<string>) {
    forall i, j | 0 <= i < j < |names| :: names[i] != names[j]
  }

  lemma ConsDistinct(name: string, names: seq<string>)
    ensures Distinct([name] + names) <==> Distinct(names) && name !in names
  {
    var all := [name] + names;
    assert forall i | 0 <= i < |names| :: all[i + 1] == names[i];
    if Distinct(all) {
      forall i, j | 0 <= i < j < |names| ensures names[i] != names[j] { assert all[i + 1] != all[j + 1]; }
      forall i | 0 <= i < |names| ensures names[i] != name { assert all[0] != all[i + 1]; }
    }
  }

  lemma {:induction false} InsertAdds(name: string, names: seq<string>)
    ensures multiset(Insert(name, names)) == multiset(names) + multiset{name}
    ensures Distinct(names) && name !in names ==> Distinct(Insert(name, names))
  {
    if names != [] {
      var rest := names[1..];
      assert names == [names[0]] + rest;
      ConsDistinct(name, names);
      if !AtMost(name, names[0]) {
        InsertAdds(name, rest);
        var tail := Insert(name, rest);
        ConsDistinct(names[0], rest);
        ConsDistinct(names[0], tail);
        assert names[0] in tail ==> names[0] in multiset(tail);
      }
    }
  }

  lemma {:induction false} InsertSorts(name: string, names: seq<string>)
    requires Sorted(names)
    ensures Sorted(Insert(name, names))
  {
    if names != [] {
      AtMostTotal(name, names[0]);
      var rest := names[1..];
      if AtMost(name, names[0]) {
        forall i | 0 <= i < |names| ensures AtMost(name, names[i]) {
          if i > 0 { AtMostTransitive(name, names[0], names[i]); }
        }
      } else {
        InsertSorts(name, rest);
        InsertAdds(name, rest);
        var tail := Insert(name, rest);
        forall i | 0 <= i < |tail| ensures tail[i] == name || tail[i] in rest {
          assert tail[i] in multiset(tail);
        }
      }
    }
  }

  /** Sorting orders the names and neither loses, adds nor repeats one. */
  lemma {:induction false} SortSorts(names: seq<string>)
    ensures Sorted(Sort(names)) && multiset(Sort(names)) == multiset(names)
    ensures Distinct(names) ==> Distinct(Sort(names))
  {
    if names != [] {
      var rest := names[1..];
      assert names == [names[0]] + rest;
      SortSorts(rest);
      InsertSorts(names[0], Sort(rest));
      InsertAdds(names[0], Sort(rest));
      ConsDistinct(names[0], rest);
      assert names[0] in Sort(rest) ==> names[0] in multiset(rest) by {
        if names[0] in Sort(rest) { assert names[0] in multiset(Sort(rest)); }
      }
    }
  }

  /** Sorted names without repetition are strictly increasing. */
  lemma StrictlyIncreasing(names: seq<string>)
    requires Sorted(names) && Distinct(names)
    ensures forall i, j | 0 <= i < j < |names| :: !AtMost(names[j], names[i])
  {
    forall i, j | 0 <= i < j < |names| ensures !AtMost(names[j], names[i]) {
      AtMostTotal(names[i], names[j]);
    }
  }
}
