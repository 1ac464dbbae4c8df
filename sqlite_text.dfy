/**
 * SQLite's REPLACE, RTRIM, LENGTH and LIKE on text, with SQL NULL as None,
 * and the meaning of the two expressions the snapshot builds from them: the
 * extension of a file name and the depth of a directory.
 */
module SqliteText {
  import opened Wrappers
  import opened PyStr

  // ---------------------------------------------------------------------------
  // The built-in functions

  /**
   * replace(x, y, z) for a non-empty y: scanning from the left, every
   * occurrence of y is replaced by z and scanning resumes after it.
   */
  function ReplaceAll(x: string, y: string, z: string): string
    requires |y| > 0
    decreases |x|
  {
    if |x| < |y| then x
    else if x[..|y|] == y then z + ReplaceAll(x[|y|..], y, z)
    else [x[0]] + ReplaceAll(x[1..], y, z)
  }

  /** replace(X, Y, Z): NULL if any argument is NULL; X itself when Y is empty. */
  function Replace(x: Option<string>, y: Option<string>, z: Option<string>): Option<string> {
    if x.None? || y.None? || z.None? then None
    else if |y.value| == 0 then x
    else Some(ReplaceAll(x.value, y.value, z.value))
  }

  /** The characters of a text, as the set rtrim removes. */
  function Chars(y: string): set<char> {
    set c | c in y
  }

  /** rtrim(X, Y): drops every trailing character of X that occurs in Y, as Python's rstrip does. */
  function RTrim(x: Option<string>, y: Option<string>): Option<string> {
    if x.None? || y.None? then None else Some(RStrip(x.value, Chars(y.value)))
  }

  function Length(x: Option<string>): Option<int> {
    if x.None? then None else Some(|x.value|)
  }

  /** LIKE folds upper-case ASCII letters to lower case. */
  function Fold(c: char): char {
    if 'A' <= c <= 'Z' then (c as int + 32) as char else c
  }

  /** x LIKE p without ESCAPE: '%' matches any run, '_' any one character. */
  function LikeMatch(x: string, p: string): bool
    decreases |x| + |p|
  {
    if |p| == 0 then |x| == 0
    else if p[0] == '%' then LikeMatch(x, p[1..]) || (|x| > 0 && LikeMatch(x[1..], p))
    else if p[0] == '_' then |x| > 0 && LikeMatch(x[1..], p[1..])
    else |x| > 0 && Fold(x[0]) == Fold(p[0]) && LikeMatch(x[1..], p[1..])
  }

  /** x NOT LIKE p, NULL when x is NULL. */
  function NotLike(x: Option<string>, p: string): Option<bool> {
    if x.None? then None else Some(!LikeMatch(x.value, p))
  }

  // ---------------------------------------------------------------------------
  // Reference definitions

  /** The number of occurrences of c in s. */
  function Count(s: string, c: char): nat {
    if |s| == 0 then 0 else (if s[0] == c then 1 else 0) + Count(s[1..], c)
  }

  /** s with every c removed. */
  function Without(s: string, c: char): string {
    if |s| == 0 then "" else (if s[0] == c then "" else [s[0]]) + Without(s[1..], c)
  }

  /** The position of the last c in s. */
  function LastIndex(s: string, c: char): (k: nat)
    requires c in s
    ensures k < |s| && s[k] == c
    ensures forall i :: k < i < |s| ==> s[i] != c
  {
    if s[|s| - 1] == c then |s| - 1 else LastIndex(s[..|s| - 1], c)
  }

  // ---------------------------------------------------------------------------
  // The two expressions

  /**
   * CASE WHEN name NOT LIKE '%.%' THEN NULL
   *      ELSE REPLACE(name, RTRIM(name, REPLACE(name, '.', '')), '') END
   */
  function ExtensionExpr(name: Option<string>): Option<string> {
    var noDot := NotLike(name, "%.%");
    if noDot == Some(true) then None
    else Replace(name, RTrim(name, Replace(name, Some("."), Some(""))), Some(""))
  }

  /** level() + LENGTH(name) - LENGTH(REPLACE(name, '/', '')) */
  function DepthExpr(level: int, name: Option<string>): Option<int> {
    var whole := Length(name);
    var slashless := Length(Replace(name, Some("/"), Some("")));
    if whole.None? || slashless.None? then None else Some(level + whole.value - slashless.value)
  }

  // ---------------------------------------------------------------------------
  // Lemmas

  /** Replacing one character by nothing removes exactly that character. */
  lemma {:induction false} ReplaceCharByNothing(s: string, c: char)
    ensures ReplaceAll(s, [c], "") == Without(s, c)
    decreases |s|
  {
    if |s| > 0 {
      ReplaceCharByNothing(s[1..], c);
      if s[0] == c {
        assert s[..1] == [c];
      } else {
        assert s[..1] != [c];
      }
    }
  }

  lemma {:induction false} WithoutLength(s: string, c: char)
    ensures |Without(s, c)| == |s| - Count(s, c)
  {
    if |s| > 0 {
      WithoutLength(s[1..], c);
    }
  }

  lemma {:induction false} WithoutKeeps(s: string, c: char)
    ensures c !in Without(s, c)
    ensures forall i :: 0 <= i < |s| && s[i] != c ==> s[i] in Without(s, c)
  {
    if |s| > 0 {
      WithoutKeeps(s[1..], c);
      forall i | 0 <= i < |s| && s[i] != c ensures s[i] in Without(s, c) {
        if i > 0 {
          assert s[i] == s[1..][i - 1];
        }
      }
    }
  }

  /**
   * If the last c sits at k and every later character is in y (c is not),
   * rtrim stops just after that c.
   */
  lemma {:induction false} RTrimToLast(x: string, y: set<char>, k: nat)
    requires k < |x| && x[k] !in y
    requires forall i :: k < i < |x| ==> x[i] in y
    ensures RStrip(x, y) == x[..k + 1]
    decreases |x|
  {
    if |x| > k + 1 {
      assert x[..|x| - 1][k] == x[k];
      RTrimToLast(x[..|x| - 1], y, k);
      assert x[..|x| - 1][..k + 1] == x[..k + 1];
    } else {
      assert x[..k + 1] == x;
    }
  }

  /** A pattern holding a character that x lacks never matches: x is left alone. */
  lemma {:induction false} ReplaceAbsent(x: string, p: string, c: char)
    requires |p| > 0 && c in p && c !in x
    ensures ReplaceAll(x, p, "") == x
    decreases |x|
  {
    if |x| >= |p| {
      assert x[..|p|] != p;
      assert c !in x[1..] by {
        forall i | 0 <= i < |x[1..]| ensures x[1..][i] != c { assert x[1..][i] == x[i + 1]; }
      }
      ReplaceAbsent(x[1..], p, c);
      assert [x[0]] + x[1..] == x;
    }
  }

  lemma {:induction false} LikeAnything(x: string)
    ensures LikeMatch(x, "%")
    decreases |x|
  {
    if |x| > 0 {
      LikeAnything(x[1..]);
    }
  }

  lemma LikeDotFirst(x: string)
    ensures LikeMatch(x, ".%") <==> |x| > 0 && x[0] == '.'
  {
    var p := ".%";
    assert p[0] == '.' && p[1..] == "%";
    if |x| > 0 {
      LikeAnything(x[1..]);
    }
  }

  /** x LIKE '%.%' exactly when x has a '.' somewhere. */
  lemma {:induction false} LikeHasDot(x: string)
    ensures LikeMatch(x, "%.%") <==> '.' in x
    decreases |x|
  {
    var p := "%.%";
    assert p[0] == '%' && p[1..] == ".%";
    LikeDotFirst(x);
    if |x| > 0 {
      LikeHasDot(x[1..]);
      assert '.' in x <==> x[0] == '.' || '.' in x[1..] by {
        assert x == [x[0]] + x[1..];
      }
    }
  }

  /** rtrim by the name's dot-free characters stops just after the last '.'. */
  lemma TrimToLastDot(s: string)
    requires '.' in s
    ensures RStrip(s, Chars(Without(s, '.'))) == s[..LastIndex(s, '.') + 1]
  {
    WithoutKeeps(s, '.');
    RTrimToLast(s, Chars(Without(s, '.')), LastIndex(s, '.'));
  }

  /** Removing everything up to the last '.' leaves the text after it. */
  lemma CutThroughLastDot(s: string)
    requires '.' in s
    ensures ReplaceAll(s, s[..LastIndex(s, '.') + 1], "") == s[LastIndex(s, '.') + 1..]
  {
    var k := LastIndex(s, '.');
    var head := s[..k + 1];
    var tail := s[k + 1..];
    assert '.' !in tail by {
      forall i | 0 <= i < |tail| ensures tail[i] != '.' { assert tail[i] == s[k + 1 + i]; }
    }
    assert head[k] == '.';
    ReplaceAbsent(tail, head, '.');
    assert s[..|head|] == head;
    assert s[|head|..] == tail;
  }

  /**
   * The extension expression is NULL for a NULL name and for a name with no
   * '.', and otherwise the text after the last '.', without the dot.
   */
  lemma ExtensionIsAfterLastDot(name: Option<string>)
    ensures name.None? ==> ExtensionExpr(name) == None
    ensures name.Some? && '.' !in name.value ==> ExtensionExpr(name) == None
    ensures name.Some? && '.' in name.value ==>
      ExtensionExpr(name) == Some(name.value[LastIndex(name.value, '.') + 1..])
  {
    if name.Some? {
      var s := name.value;
      LikeHasDot(s);
      if '.' in s {
        ReplaceCharByNothing(s, '.');
        var dotless := Replace(name, Some("."), Some(""));
        assert dotless == Some(Without(s, '.'));
        TrimToLastDot(s);
        var trimmed := RTrim(name, dotless);
        assert trimmed == Some(s[..LastIndex(s, '.') + 1]);
        CutThroughLastDot(s);
      }
    }
  }

  /** The depth expression adds the number of '/' in the name to level(). */
  lemma DepthCountsSlashes(level: int, name: Option<string>)
    ensures name.None? ==> DepthExpr(level, name) == None
    ensures name.Some? ==> DepthExpr(level, name) == Some(level + Count(name.value, '/'))
  {
    if name.Some? {
      ReplaceCharByNothing(name.value, '/');
      WithoutLength(name.value, '/');
    }
  }
}
