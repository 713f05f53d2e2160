// JSON pointers (section 3 of RFC 6901): escaped segments and their strings.

module Pointers {
  import opened Common

  /** Escaped segments, outermost first; the root is the empty path. */
  type Path = seq<string>

  function Replace(s: string, c: char, with: string): string {
    if |s| == 0 then "" else (if s[0] == c then with else [s[0]]) + Replace(s[1..], c, with)
  }

  /** A pointer segment for an object key. */
  function Escape(key: string): string {
    Replace(Replace(key, '~', "~0"), '/', "~1")
  }

  function Unescape(segment: string): string {
    if |segment| == 0 then ""
    else if |segment| >= 2 && segment[0] == '~' && segment[1] == '0' then "~" + Unescape(segment[2..])
    else if |segment| >= 2 && segment[0] == '~' && segment[1] == '1' then "/" + Unescape(segment[2..])
    else [segment[0]] + Unescape(segment[1..])
  }

  lemma {:induction false} ReplaceSum(a: string, b: string, c: char, with: string)
    ensures Replace(a + b, c, with) == Replace(a, c, with) + Replace(b, c, with)
  {
    if |a| == 0 {
      assert a + b == b;
    } else {
      assert (a + b)[1..] == a[1..] + b;
      ReplaceSum(a[1..], b, c, with);
    }
  }

  lemma EscapeFirst(key: string)
    requires |key| > 0
    ensures Escape(key) == (if key[0] == '~' then "~0" else if key[0] == '/' then "~1" else [key[0]]) + Escape(key[1..])
  {
    var head := if key[0] == '~' then "~0" else [key[0]];
    ReplaceSum(head, Replace(key[1..], '~', "~0"), '/', "~1");
    if key[0] == '~' {
      assert "~0"[1..] == "0" && "0"[1..] == "";
      assert Replace("0", '/', "~1") == "0";
      assert Replace("~0", '/', "~1") == "~0";
    } else {
      assert [key[0]][1..] == "";
    }
  }

  /** Escaping loses nothing and leaves no slash, so a pointer names one path. */
  lemma {:induction false} EscapeRoundTrip(key: string)
    ensures Unescape(Escape(key)) == key
    ensures '/' !in Escape(key)
  {
    if |key| > 0 {
      EscapeFirst(key);
      EscapeRoundTrip(key[1..]);
      var rest := Escape(key[1..]);
      if key[0] == '~' || key[0] == '/' {
        assert Escape(key)[2..] == rest;
      } else {
        assert Escape(key)[1..] == rest;
        assert Escape(key)[0] == key[0];
      }
    }
  }

  lemma EscapeInjective(a: string, b: string)
    requires Escape(a) == Escape(b)
    ensures a == b
  {
    EscapeRoundTrip(a);
    EscapeRoundTrip(b);
  }

  // ----- array indices -----

  function Digit(n: nat): char
    requires n < 10
  {
    '0' + n as char
  }

  function Decimal(n: nat): (s: string)
    ensures |s| > 0
  {
    if n < 10 then [Digit(n)] else Decimal(n / 10) + [Digit(n % 10)]
  }

  function Parsed(s: string): nat {
    if |s| == 0 then 0
    else 10 * Parsed(s[..|s| - 1]) + (if '0' <= s[|s| - 1] <= '9' then (s[|s| - 1] - '0') as nat else 0)
  }

  /** Decimal indices are distinct and hold no slash. */
  lemma {:induction false} DecimalRoundTrip(n: nat)
    ensures Parsed(Decimal(n)) == n
    ensures '/' !in Decimal(n)
  {
    var s := Decimal(n);
    if n < 10 {
      assert s[..0] == "" && s[0] == Digit(n);
    } else {
      DecimalRoundTrip(n / 10);
      assert s[..|s| - 1] == Decimal(n / 10);
    }
  }

  // ----- pointer strings -----

  function Join(path: Path): string {
    if |path| == 0 then "" else "/" + path[0] + Join(path[1..])
  }

  /** The pieces of `s` between slashes; at least one. */
  function Split(s: string): (pieces: seq<string>)
    ensures |pieces| > 0
  {
    if |s| == 0 then [""]
    else if s[0] == '/' then [""] + Split(s[1..])
    else
      var rest := Split(s[1..]);
      [[s[0]] + rest[0]] + rest[1..]
  }

  /** The segments of a pointer string; a string that is not a pointer has none. */
  function Segments(pointer: string): Option<Path> {
    if |pointer| == 0 then Some([])
    else if pointer[0] == '/' then Some(Split(pointer[1..]))
    else None
  }

  ghost predicate SlashFree(path: Path) {
    forall i :: 0 <= i < |path| ==> '/' !in path[i]
  }

  lemma {:induction false} SplitJoin(segment: string, path: Path)
    requires '/' !in segment && SlashFree(path)
    ensures Split(segment + Join(path)) == [segment] + path
    decreases |path|, |segment|
  {
    var s := segment + Join(path);
    if |segment| == 0 {
      if |path| == 0 {
        assert s == "";
      } else {
        assert s == Join(path);
        assert s[1..] == path[0] + Join(path[1..]);
        SplitJoin(path[0], path[1..]);
        assert path == [path[0]] + path[1..];
      }
    } else {
      assert s[1..] == segment[1..] + Join(path);
      SplitJoin(segment[1..], path);
      assert [s[0]] + segment[1..] == segment;
    }
  }

  lemma {:induction false} JoinSplit(s: string)
    ensures Join(Split(s)) == "/" + s
    ensures SlashFree(Split(s))
  {
    if |s| > 0 {
      JoinSplit(s[1..]);
      var rest := Split(s[1..]);
      if s[0] == '/' {
        assert Split(s)[1..] == rest;
        assert "/" + "" + ("/" + s[1..]) == "/" + s;
      } else {
        assert Split(s)[1..] == rest[1..];
        assert Join(rest) == "/" + rest[0] + Join(rest[1..]);
        assert rest[0] + Join(rest[1..]) == s[1..] by {
          assert ("/" + rest[0] + Join(rest[1..]))[1..] == rest[0] + Join(rest[1..]);
          assert ("/" + s[1..])[1..] == s[1..];
        }
        calc {
          Join(Split(s));
          "/" + ([s[0]] + rest[0]) + Join(rest[1..]);
          "/" + ([s[0]] + (rest[0] + Join(rest[1..])));
          "/" + ([s[0]] + s[1..]);
        }
      }
    }
  }

  /** A string is the pointer of a path exactly when it splits into that path. */
  lemma PointerRoundTrip(pointer: string, path: Path)
    requires SlashFree(path)
    ensures Segments(pointer) == Some(path) <==> pointer == Join(path)
  {
    if |path| > 0 {
      SplitJoin(path[0], path[1..]);
      assert path == [path[0]] + path[1..];
      assert Join(path)[1..] == path[0] + Join(path[1..]);
    }
    if |pointer| > 0 && pointer[0] == '/' {
      JoinSplit(pointer[1..]);
    }
  }
}
