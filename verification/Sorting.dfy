// Stable sorting by sequences of numbers, and the order of UTF-16 code units.

module Sorting {
  /** The UTF-16 code units of a text. */
  function Units(s: string): seq<nat> {
    if |s| == 0 then []
    else
      var c := s[0] as int;
      (if c < 0x10000 then [c] else [0xd800 + (c - 0x10000) / 0x400, 0xdc00 + (c - 0x10000) % 0x400]) + Units(s[1..])
  }

  predicate Less(a: seq<nat>, b: seq<nat>)
    decreases |a|
  {
    |b| > 0 && (|a| == 0 || a[0] < b[0] || (a[0] == b[0] && Less(a[1..], b[1..])))
  }

  /** A character is one unit, or the pair of surrogates that stands for it (section 2 of RFC 2781). */
  lemma UnitsAre(c: char, rest: string)
    ensures
      var (units, after) := (Units([c] + rest), Units(rest));
      if c as int < 0x10000 then units == [c as int] + after
      else
        && |units| == 2 + |after| && units[2..] == after
        && 0xd800 <= units[0] < 0xdc00 <= units[1] < 0xe000
        && c as int == 0x10000 + (units[0] - 0xd800) * 0x400 + (units[1] - 0xdc00)
  {
    assert ([c] + rest)[1..] == rest;
  }

  /** After a common beginning, `a` ends or has the smaller number. */
  ghost predicate Before(a: seq<nat>, b: seq<nat>) {
    exists n :: Differs(a, b, n)
  }

  ghost predicate Differs(a: seq<nat>, b: seq<nat>, n: int) {
    0 <= n <= |a| && n < |b| && a[..n] == b[..n] && (n == |a| || a[n] < b[n])
  }

  lemma {:induction false} LessIsBefore(a: seq<nat>, b: seq<nat>)
    ensures Less(a, b) <==> Before(a, b)
    decreases |a|
  {
    if |a| == 0 || |b| == 0 || a[0] != b[0] {
      if Less(a, b) { assert Differs(a, b, 0); }
    } else {
      LessIsBefore(a[1..], b[1..]);
      if n :| Differs(a[1..], b[1..], n) {
        assert a[..n + 1] == [a[0]] + a[1..][..n] && b[..n + 1] == [b[0]] + b[1..][..n];
        assert Differs(a, b, n + 1);
      }
      if n :| Differs(a, b, n) {
        assert n > 0;
        assert a[1..][..n - 1] == a[..n][1..] && b[1..][..n - 1] == b[..n][1..];
        assert Differs(a[1..], b[1..], n - 1);
      }
    }
  }

  ghost predicate Ascending<T>(s: seq<T>, key: T -> seq<nat>) {
    forall i, j :: 0 <= i < j < |s| ==> !Less(key(s[j]), key(s[i]))
  }

  /** Stable: an element goes after those that are not after it. */
  function Insert<T>(s: seq<T>, e: T, key: T -> seq<nat>): (r: seq<T>)
    ensures |r| == |s| + 1
  {
    if |s| == 0 || !Less(key(e), key(s[|s| - 1])) then s + [e] else Insert(s[..|s| - 1], e, key) + [s[|s| - 1]]
  }

  function Sorted<T>(s: seq<T>, key: T -> seq<nat>): (r: seq<T>)
    ensures |r| == |s|
  {
    if |s| == 0 then [] else Insert(Sorted(s[..|s| - 1], key), s[|s| - 1], key)
  }

  lemma {:induction false} LessOrder(a: seq<nat>, b: seq<nat>, c: seq<nat>)
    ensures Less(a, b) && Less(b, c) ==> Less(a, c)
    ensures Less(a, b) ==> !Less(b, a)
    ensures !Less(a, b) && !Less(b, a) ==> a == b
    decreases |a|
  {
    if |a| > 0 && |b| > 0 {
      LessOrder(a[1..], b[1..], if |c| > 0 then c[1..] else []);
      if a[0] == b[0] && a[1..] == b[1..] { assert a == [a[0]] + a[1..] && b == [b[0]] + b[1..]; }
    }
  }

  /** Not being after is transitive. */
  lemma NotAfter(a: seq<nat>, b: seq<nat>, c: seq<nat>)
    ensures !Less(b, a) && !Less(c, b) ==> !Less(c, a)
  {
    hide Less;
    LessOrder(a, b, c);
    LessOrder(c, a, b);
    LessOrder(b, c, a);
  }

  lemma {:induction false} InsertAscends<T>(s: seq<T>, e: T, key: T -> seq<nat>)
    requires Ascending(s, key)
    ensures Ascending(Insert(s, e, key), key) && multiset(Insert(s, e, key)) == multiset(s) + multiset{e}
    decreases |s|
  {
    hide Less;
    if |s| > 0 {
      var (init, last) := (s[..|s| - 1], s[|s| - 1]);
      assert s == init + [last];
      LessOrder(key(e), key(last), key(e));
      if Less(key(e), key(last)) {
        InsertAscends(init, e, key);
        var r := Insert(init, e, key);
        forall i | 0 <= i < |r|
          ensures !Less(key(last), key(r[i]))
        {
          assert r[i] in multiset(r);
        }
      } else {
        forall i | 0 <= i < |s|
          ensures !Less(key(e), key(s[i]))
        {
          NotAfter(key(s[i]), key(last), key(e));
        }
      }
    }
  }

  lemma {:induction false} SortedAscends<T>(s: seq<T>, key: T -> seq<nat>)
    ensures Ascending(Sorted(s, key), key) && multiset(Sorted(s, key)) == multiset(s)
  {
    if |s| > 0 {
      SortedAscends(s[..|s| - 1], key);
      InsertAscends(Sorted(s[..|s| - 1], key), s[|s| - 1], key);
      assert s == s[..|s| - 1] + [s[|s| - 1]];
    }
  }

  lemma {:induction false} SortedAgain<T>(s: seq<T>, key: T -> seq<nat>)
    requires Ascending(s, key)
    ensures Sorted(s, key) == s
  {
    if |s| > 0 {
      SortedAgain(s[..|s| - 1], key);
      assert s == s[..|s| - 1] + [s[|s| - 1]];
    }
  }
}
