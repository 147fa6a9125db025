/**
 * The `LIKE` operator of SQLite, which SQLAlchemy's `column.contains(term)`
 * compiles to as `column LIKE '%' || term || '%'` (no escape character).
 * SQLite's default `LIKE` folds ASCII letters only; `%` matches any run of
 * characters and `_` any single character, also when they come from `term`.
 */
module SqlLike {
  import Text

  /** `s LIKE p`. */
  predicate Match(s: string, p: string)
    decreases |s| + |p|
  {
    if |p| == 0 then |s| == 0
    else if p[0] == '%' then Match(s, p[1..]) || (|s| > 0 && Match(s[1..], p))
    else
      && |s| > 0
      && (p[0] == '_' || Text.LowerChar(s[0]) == Text.LowerChar(p[0]))
      && Match(s[1..], p[1..])
  }

  /** `column.contains(term)`. */
  predicate Contains(column: string, term: string) {
    Match(column, "%" + term + "%")
  }

  predicate NoWildcards(t: string) {
    '%' !in t && '_' !in t
  }

  lemma {:induction false} PercentMatchesAll(s: string)
    ensures Match(s, "%")
    decreases |s|
  {
    if |s| > 0 {
      PercentMatchesAll(s[1..]);
    }
  }

  /** Two strings of the same positive length fold to the same string
      exactly when their first characters and their tails do. */
  lemma LowerCons(a: string, b: string)
    requires |a| == |b| > 0
    ensures Text.Lower(a) == Text.Lower(b)
        <==> Text.LowerChar(a[0]) == Text.LowerChar(b[0]) && Text.Lower(a[1..]) == Text.Lower(b[1..])
  {
    assert Text.Lower(a) == [Text.LowerChar(a[0])] + Text.Lower(a[1..]);
    assert Text.Lower(b) == [Text.LowerChar(b[0])] + Text.Lower(b[1..]);
  }

  /** A literal term followed by `%` matches exactly the strings that start
      with the term, up to ASCII case. */
  lemma {:induction false} LiteralPrefix(s: string, t: string)
    requires NoWildcards(t)
    ensures Match(s, t + "%") <==> |t| <= |s| && Text.Lower(s[..|t|]) == Text.Lower(t)
    decreases |t|
  {
    if |t| == 0 {
      PercentMatchesAll(s);
      assert t + "%" == "%";
    } else {
      var p := t + "%";
      assert p[0] == t[0] && p[1..] == t[1..] + "%";
      assert t[0] != '%' && t[0] != '_' by { assert t[0] in t; }
      assert NoWildcards(t[1..]) by {
        forall c | c in t[1..] ensures c != '%' && c != '_' { assert c in t; }
      }
      if |s| > 0 {
        LiteralPrefix(s[1..], t[1..]);
        if |t| <= |s| {
          assert s[..|t|][1..] == s[1..][..|t| - 1];
          LowerCons(s[..|t|], t);
        }
      }
    }
  }

  /** A leading `%` tries every suffix. */
  lemma {:induction false} LeadingPercent(s: string, x: string)
    ensures Match(s, "%" + x) <==> exists i :: 0 <= i <= |s| && Match(s[i..], x)
    decreases |s|
  {
    assert ("%" + x)[1..] == x;
    assert s[0..] == s;
    if |s| > 0 {
      LeadingPercent(s[1..], x);
      if exists i :: 0 <= i <= |s| && Match(s[i..], x) {
        var i :| 0 <= i <= |s| && Match(s[i..], x);
        if i > 0 {
          assert s[1..][i - 1..] == s[i..];
        }
      }
      if exists i :: 0 <= i <= |s[1..]| && Match(s[1..][i..], x) {
        var i :| 0 <= i <= |s[1..]| && Match(s[1..][i..], x);
        assert s[1..][i..] == s[i + 1..];
      }
    }
  }

  /** For a term without wildcards, the server-side search is an ASCII
      case-insensitive substring test. */
  lemma ContainsIsFoldedSubstring(column: string, term: string)
    requires NoWildcards(term)
    ensures Contains(column, term) <==> Text.Contains(Text.Lower(column), Text.Lower(term))
  {
    assert "%" + term + "%" == "%" + (term + "%");
    LeadingPercent(column, term + "%");
    var lc, lt := Text.Lower(column), Text.Lower(term);
    forall i | 0 <= i <= |column|
      ensures Match(column[i..], term + "%") <==> Text.OccursAt(lc, lt, i)
    {
      LiteralPrefix(column[i..], term);
      if |term| <= |column[i..]| {
        assert column[i..][..|term|] == column[i..i + |term|];
        assert Text.Lower(column[i..i + |term|]) == lc[i..i + |term|];
      }
    }
    if Text.Contains(lc, lt) {
      var i :| 0 <= i <= |lc| - |lt| && Text.OccursAt(lc, lt, i);
      assert Match(column[i..], term + "%");
    }
  }
}
