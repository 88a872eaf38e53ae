/** The order in which the standard library's ordered maps and sets yield string keys:
    code point by code point, which for UTF-8 is the same as byte by byte. */
module Order {

  /** a comes before b or is b. */
  predicate AtMost(a: string, b: string)
  {
    a == [] || (b != [] && (a[0] < b[0] || (a[0] == b[0] && AtMost(a[1..], b[1..]))))
  }

  lemma {:induction false} AtMostTotal(a: string, b: string)
    ensures AtMost(a, b) || AtMost(b, a)
  {
    if a != [] && b != [] && a[0] == b[0] {
      AtMostTotal(a[1..], b[1..]);
    }
  }

  lemma {:induction false} AtMostAntisymmetric(a: string, b: string)
    requires AtMost(a, b) && AtMost(b, a)
    ensures a == b
  {
    if a != [] && b != [] {
      AtMostAntisymmetric(a[1..], b[1..]);
      assert a == [a[0]] + a[1..] && b == [b[0]] + b[1..];
    }
  }

  lemma {:induction false} AtMostTransitive(a: string, b: string, c: string)
    requires AtMost(a, b) && AtMost(b, c)
    ensures AtMost(a, c)
  {
    if a != [] && a[0] == b[0] && b[0] == c[0] {
      AtMostTransitive(a[1..], b[1..], c[1..]);
    }
  }

  predicate IsLeast(x: string, s: set<string>)
  {
    x in s && forall y :: y in s ==> AtMost(x, y)
  }

  lemma {:induction false} LeastExists(s: set<string>) returns (x: string)
    requires s != {}
    ensures IsLeast(x, s)
  {
    x :| x in s;
    var rest := s - {x};
    if rest != {} {
      var y := LeastExists(rest);
      AtMostTotal(x, y);
      if AtMost(x, y) {
        forall z | z in s ensures AtMost(x, z) {
          if z == x { AtMostTotal(x, x); } else { AtMostTransitive(x, y, z); }
        }
      } else {
        AtMostTotal(y, y);
        x := y;
      }
    } else {
      assert s == {x};
      AtMostTotal(x, x);
    }
  }

  /** The ascending enumeration of a set of keys. */
  function Ascending(s: set<string>): (keys: seq<string>)
    ensures forall k :: k in keys <==> k in s
    ensures |keys| == |s|
    ensures forall i, j :: 0 <= i < j < |keys| ==> keys[i] != keys[j] && AtMost(keys[i], keys[j])
  {
    if s == {} then
      []
    else
      assert exists x :: x in s && IsLeast(x, s) by {
        var x := LeastExists(s);
      }
      assert forall x, x' | IsLeast(x, s) && IsLeast(x', s) :: x == x' by {
        forall x, x' | IsLeast(x, s) && IsLeast(x', s) ensures x == x' {
          AtMostAntisymmetric(x, x');
        }
      }
      var x :| x in s && IsLeast(x, s);
      [x] + Ascending(s - {x})
  }
}
