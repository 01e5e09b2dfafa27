/** The pattern match behind `name ILIKE '%' || search || '%'`: internal/product/repository_pg.go. */
module Like {

  /** Case is folded for the letters A to Z, which are 32 below a to z. */
  function Fold(c: char): (f: char)
    ensures 'A' <= c <= 'Z' ==> f as int == c as int + 32
    ensures !('A' <= c <= 'Z') ==> f == c
  {
    if 'A' <= c <= 'Z' then ('a' as int + (c as int - 'A' as int)) as char else c
  }

  function Lower(s: string): (r: string)
    ensures |r| == |s|
    ensures forall i :: 0 <= i < |s| ==> r[i] == Fold(s[i])
  {
    seq(|s|, i requires 0 <= i < |s| => Fold(s[i]))
  }

  /** SQL's LIKE: % stands for any characters, _ for one, and \ takes the next character as it is. */
  predicate Matches(s: string, p: string)
    decreases |s| + |p|
  {
    if p == "" then s == ""
    else if p[0] == '%' then Matches(s, p[1..]) || (s != "" && Matches(s[1..], p))
    else if p[0] == '_' then s != "" && Matches(s[1..], p[1..])
    else if p[0] == '\\' then |p| >= 2 && s != "" && s[0] == p[1] && Matches(s[1..], p[2..])
    else s != "" && s[0] == p[0] && Matches(s[1..], p[1..])
  }

  predicate ILike(s: string, p: string) {
    Matches(Lower(s), Lower(p))
  }

  predicate OccursAt(name: string, search: string, i: nat) {
    i + |search| <= |name| && Lower(name[i..i + |search|]) == Lower(search)
  }

  /** What a reader expects of a search: the text occurs in the name, whatever the case. */
  predicate Contains(name: string, search: string) {
    exists i: nat :: i <= |name| && OccursAt(name, search, i)
  }

  predicate Meta(c: char) {
    c == '%' || c == '_' || c == '\\'
  }

  predicate Plain(s: string) {
    forall i :: 0 <= i < |s| ==> !Meta(s[i])
  }

  // ---------- what a pattern means ----------

  lemma {:induction false} PercentMeans(s: string, p: string)
    ensures Matches(s, "%" + p) <==> exists i :: 0 <= i <= |s| && Matches(s[i..], p)
  {
    assert ("%" + p)[1..] == p && s[0..] == s;
    if s != "" {
      PercentMeans(s[1..], p);
      forall i | 0 <= i < |s| ensures s[1..][i..] == s[i + 1..] {
      }
      if i :| 0 < i <= |s| && Matches(s[i..], p) {
        assert s[1..][i - 1..] == s[i..];
      }
    }
  }

  /** The four cases of a pattern: % any characters, _ exactly one, \ the next character itself, any other itself. */
  lemma PatternsMean(s: string, c: char, p: string)
    ensures Matches(s, "") <==> s == ""
    ensures Matches(s, "%" + p) <==> exists i :: 0 <= i <= |s| && Matches(s[i..], p)
    ensures Matches(s, "_" + p) <==> s != "" && Matches(s[1..], p)
    ensures Matches(s, "\\" + [c] + p) <==> s != "" && s[0] == c && Matches(s[1..], p)
    ensures !Meta(c) ==> (Matches(s, [c] + p) <==> s != "" && s[0] == c && Matches(s[1..], p))
  {
    PercentMeans(s, p);
    assert ("_" + p)[1..] == p && ([c] + p)[1..] == p && ("\\" + [c] + p)[2..] == p;
  }

  // ---------- a plain search is a substring search ----------

  lemma {:induction false} AnythingMatchesPercent(s: string)
    ensures Matches(s, "%")
  {
    if s != "" {
      AnythingMatchesPercent(s[1..]);
    } else {
      assert Matches(s, "%"[1..]);
    }
  }

  lemma {:induction false} PlainIsPrefix(s: string, lit: string)
    requires Plain(lit)
    ensures Matches(s, lit + "%") <==> lit <= s
  {
    var p := lit + "%";
    if lit == "" {
      assert p == "%";
      AnythingMatchesPercent(s);
    } else {
      assert !Meta(lit[0]) && p[0] == lit[0] && p[1..] == lit[1..] + "%";
      if s != "" && s[0] == lit[0] {
        PlainIsPrefix(s[1..], lit[1..]);
        assert lit <= s <==> lit[1..] <= s[1..] by {
          assert lit == [lit[0]] + lit[1..] && s == [s[0]] + s[1..];
        }
      }
    }
  }

  lemma {:induction false} PlainOccurs(s: string, lit: string)
    requires Plain(lit)
    ensures Matches(s, "%" + (lit + "%")) <==> exists i :: 0 <= i <= |s| && lit <= s[i..]
  {
    var p := "%" + (lit + "%");
    assert p[1..] == lit + "%";
    PlainIsPrefix(s, lit);
    assert s[0..] == s;
    if s != "" {
      PlainOccurs(s[1..], lit);
      if i :| 0 <= i <= |s[1..]| && lit <= s[1..][i..] {
        assert s[1..][i..] == s[i + 1..];
      }
      if i :| 0 <= i <= |s| && lit <= s[i..] {
        if i > 0 {
          assert s[1..][i - 1..] == s[i..];
        }
      }
    }
  }

  lemma PlainSearchIsContains(name: string, search: string)
    requires Plain(search)
    ensures ILike(name, "%" + search + "%") <==> Contains(name, search)
  {
    var s, lit := Lower(name), Lower(search);
    assert Lower("%" + search + "%") == "%" + (lit + "%");
    assert Plain(lit);
    PlainOccurs(s, lit);
    forall i: nat | i <= |name| ensures lit <= s[i..] <==> OccursAt(name, search, i) {
      if i + |search| <= |name| {
        assert Lower(name[i..i + |search|]) == s[i..i + |search|];
        assert s[i..][..|search|] == s[i..i + |search|];
      }
    }
  }

  // ---------- any other search is not ----------

  /** A shortest text that the pattern matches. */
  function Shortest(p: string): string
    decreases |p|
  {
    if p == "" then ""
    else if p[0] == '%' then Shortest(p[1..])
    else if p[0] == '_' then "a" + Shortest(p[1..])
    else if p[0] == '\\' then if |p| == 1 then "" else [p[1]] + Shortest(p[2..])
    else [p[0]] + Shortest(p[1..])
  }

  /** The pattern q% matches its shortest text.  A \ at the end of q takes away the meaning of the %. */
  lemma {:induction false} ShortestMatches(q: string)
    ensures Matches(Shortest(q + "%"), q + "%")
    decreases |q|
  {
    var p := q + "%";
    if q == "" {
      assert p == "%";
      AnythingMatchesPercent("");
    } else if q[0] == '\\' {
      if |q| == 1 {
        assert p[2..] == "";
      } else {
        assert p[2..] == q[2..] + "%";
        ShortestMatches(q[2..]);
      }
    } else {
      assert p[1..] == q[1..] + "%";
      ShortestMatches(q[1..]);
    }
    var w := Shortest(p);
    assert q != "" && |q| > 1 && q[0] == '\\' ==> w[1..] == Shortest(p[2..]);
    assert q != "" && q[0] != '\\' && q[0] != '%' ==> w[1..] == Shortest(p[1..]);
  }

  /** The shortest match of q% is no longer than q, and is q itself only if q is plain. */
  lemma {:induction false} ShortestIsShort(q: string)
    ensures var w := Shortest(q + "%");
            |w| <= |q| && (w == q ==> Plain(q))
    decreases |q|
  {
    var p := q + "%";
    if q == "" {
      assert p == "%";
    } else if q[0] == '\\' {
      if |q| == 1 {
        assert p[2..] == "" && Shortest(p) == "%";
      } else {
        assert p[2..] == q[2..] + "%";
        ShortestIsShort(q[2..]);
      }
    } else {
      assert p[1..] == q[1..] + "%";
      ShortestIsShort(q[1..]);
      if q[0] != '%' {
        assert Shortest(p)[1..] == Shortest(p[1..]);
      }
    }
  }

  lemma {:induction false} ShortestStaysLower(p: string)
    requires Lower(p) == p
    ensures Lower(Shortest(p)) == Shortest(p)
    decreases |p|
  {
    if p != "" {
      if p[0] == '\\' && |p| >= 2 {
        assert Lower(p[2..]) == p[2..];
        ShortestStaysLower(p[2..]);
      } else if p[0] != '\\' {
        assert Lower(p[1..]) == p[1..];
        ShortestStaysLower(p[1..]);
      }
      assert forall i :: 0 <= i < |p| ==> Fold(p[i]) == p[i];
    }
  }

  /** The name that a search with a special character finds although the search does not occur in it. */
  lemma SpecialSearchFindsMore(search: string)
    requires !Plain(search)
    ensures var name := Shortest(Lower(search) + "%");
            ILike(name, "%" + search + "%") && !Contains(name, search)
  {
    var q := Lower(search);
    var name := Shortest(q + "%");
    var i :| 0 <= i < |search| && Meta(search[i]);
    assert Meta(q[i]);
    assert Lower(q + "%") == q + "%";
    ShortestIsShort(q);
    ShortestMatches(q);
    ShortestStaysLower(q + "%");
    assert Lower("%" + search + "%") == "%" + (q + "%");
    assert ("%" + (q + "%"))[1..] == q + "%";
    forall j: nat | j + |search| <= |name| ensures !OccursAt(name, search, j) {
      assert name[j..j + |search|] == name;
    }
  }

  /** The filter is a case-insensitive substring search for exactly the search texts without %, _ and \. */
  lemma SearchIsContainsExactlyWhenPlain(search: string)
    ensures (forall name :: ILike(name, "%" + search + "%") <==> Contains(name, search)) <==> Plain(search)
  {
    if Plain(search) {
      forall name ensures ILike(name, "%" + search + "%") <==> Contains(name, search) {
        PlainSearchIsContains(name, search);
      }
    } else {
      SpecialSearchFindsMore(search);
    }
  }
}
