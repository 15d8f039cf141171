/** A recipient's identity is its `email` cell after `.trim().toLowerCase()`
    (server.js:145, 147): the key for both de-duplication filters. */
module Identity {

  /** The characters `String.prototype.trim` removes: ECMAScript's WhiteSpace
      (tab, vertical tab, form feed, space, no-break space, the byte order mark
      and the Unicode Space_Separator characters) and LineTerminator (line feed,
      carriage return, line and paragraph separators). */
  predicate IsTrimmable(c: char) {
    c == '\t' || c == '\n' || c == '\U{000B}' || c == '\U{000C}' || c == '\r' || c == ' '
    || c == '\U{00A0}' || c == '\U{1680}' || ('\U{2000}' <= c <= '\U{200A}')
    || c == '\U{2028}' || c == '\U{2029}' || c == '\U{202F}' || c == '\U{205F}'
    || c == '\U{3000}' || c == '\U{FEFF}'
  }

  predicate AllTrimmable(s: string) {
    forall i :: 0 <= i < |s| ==> IsTrimmable(s[i])
  }

  /** Removes the longest prefix of trimmable characters. */
  function TrimStart(s: string): (r: string)
  {
    if s != [] && IsTrimmable(s[0]) then TrimStart(s[1..]) else s
  }

  /** Removes the longest suffix of trimmable characters. */
  function TrimEnd(s: string): (r: string)
  {
    if s != [] && IsTrimmable(s[|s| - 1]) then TrimEnd(s[..|s| - 1]) else s
  }

  /** TrimStart removes exactly the longest prefix of trimmable characters. */
  lemma {:induction false} TrimStartShape(s: string)
    ensures |TrimStart(s)| <= |s| && TrimStart(s) == s[|s| - |TrimStart(s)|..]
    ensures AllTrimmable(s[..|s| - |TrimStart(s)|])
    ensures TrimStart(s) != [] ==> !IsTrimmable(TrimStart(s)[0])
  {
    if s != [] && IsTrimmable(s[0]) {
      TrimStartShape(s[1..]);
      var r := TrimStart(s);
      assert s[..|s| - |r|] == [s[0]] + s[1..][..|s| - 1 - |r|];
    }
  }

  /** TrimEnd removes exactly the longest suffix of trimmable characters. */
  lemma {:induction false} TrimEndShape(s: string)
    ensures |TrimEnd(s)| <= |s| && TrimEnd(s) == s[..|TrimEnd(s)|]
    ensures AllTrimmable(s[|TrimEnd(s)|..])
    ensures TrimEnd(s) != [] ==> !IsTrimmable(TrimEnd(s)[|TrimEnd(s)| - 1])
  {
    if s != [] && IsTrimmable(s[|s| - 1]) {
      TrimEndShape(s[..|s| - 1]);
      var r := TrimEnd(s);
      assert s[|r|..] == s[..|s| - 1][|r|..] + [s[|s| - 1]];
    }
  }

  /** `String.prototype.trim`. */
  function Trim(s: string): string {
    TrimEnd(TrimStart(s))
  }

  /** `toLowerCase` on one character; only the ASCII letters are mapped here. */
  function LowerChar(c: char): char {
    if 'A' <= c <= 'Z' then (c as int + 32) as char else c
  }

  function ToLower(s: string): string {
    seq(|s|, i requires 0 <= i < |s| => LowerChar(s[i]))
  }

  /** `email.trim().toLowerCase()`. */
  function Normalize(email: string): (r: string)
    ensures |r| <= |email|
    ensures r != [] ==> !IsTrimmable(r[0]) && !IsTrimmable(r[|r| - 1])
  {
    TrimStartShape(email);
    TrimEndShape(TrimStart(email));
    var t := Trim(email);
    if t != [] then
      LowerKeepsTrimmable(t[0]);
      LowerKeepsTrimmable(t[|t| - 1]);
      ToLower(t)
    else ToLower(t)
  }

  lemma {:induction false} TrimStartSkipsPadding(p: string, s: string)
    requires AllTrimmable(p)
    ensures TrimStart(p + s) == TrimStart(s)
  {
    if p != [] {
      assert (p + s)[0] == p[0];
      assert (p + s)[1..] == p[1..] + s;
      assert AllTrimmable(p[1..]) by {
        forall i | 0 <= i < |p| - 1 ensures IsTrimmable(p[1..][i]) {
          assert p[1..][i] == p[i + 1];
        }
      }
      TrimStartSkipsPadding(p[1..], s);
    } else {
      assert p + s == s;
    }
  }

  lemma {:induction false} TrimEndSkipsPadding(s: string, q: string)
    requires AllTrimmable(q)
    ensures TrimEnd(s + q) == TrimEnd(s)
  {
    if q != [] {
      var q' := q[..|q| - 1];
      assert (s + q)[|s + q| - 1] == q[|q| - 1];
      assert (s + q)[..|s + q| - 1] == s + q';
      assert AllTrimmable(q') by {
        forall i | 0 <= i < |q'| ensures IsTrimmable(q'[i]) {
          assert q'[i] == q[i];
        }
      }
      TrimEndSkipsPadding(s, q');
    } else {
      assert s + q == s;
    }
  }

  lemma {:induction false} TrimSkipsTrailing(s: string, q: string)
    requires AllTrimmable(q)
    ensures Trim(s + q) == Trim(s)
  {
    if s == [] {
      assert s + q == q + [];
      TrimStartSkipsPadding(q, []);
    } else if IsTrimmable(s[0]) {
      assert (s + q)[1..] == s[1..] + q;
      TrimSkipsTrailing(s[1..], q);
    } else {
      assert (s + q)[0] == s[0];
      TrimEndSkipsPadding(s, q);
    }
  }

  /** Leading and trailing white space does not change an identity:
      `" a@b.com "` and `"a@b.com"` are one recipient. */
  lemma NormalizeIgnoresPadding(p: string, s: string, q: string)
    requires AllTrimmable(p) && AllTrimmable(q)
    ensures Normalize(p + s + q) == Normalize(s)
  {
    assert p + s + q == p + (s + q);
    TrimStartSkipsPadding(p, s + q);
    TrimSkipsTrailing(s, q);
  }

  /** Lower-casing never turns a trimmable character into a kept one, or back. */
  lemma LowerKeepsTrimmable(c: char)
    ensures IsTrimmable(LowerChar(c)) == IsTrimmable(c)
  {
  }

  lemma {:induction false} TrimStartLower(s: string)
    ensures TrimStart(ToLower(s)) == ToLower(TrimStart(s))
  {
    if s != [] {
      var l := ToLower(s);
      assert l[0] == LowerChar(s[0]);
      LowerKeepsTrimmable(s[0]);
      if IsTrimmable(s[0]) {
        assert l[1..] == ToLower(s[1..]);
        TrimStartLower(s[1..]);
      }
    }
  }

  lemma {:induction false} TrimEndLower(s: string)
    ensures TrimEnd(ToLower(s)) == ToLower(TrimEnd(s))
  {
    if s != [] {
      var l := ToLower(s);
      assert l[|s| - 1] == LowerChar(s[|s| - 1]);
      LowerKeepsTrimmable(s[|s| - 1]);
      if IsTrimmable(s[|s| - 1]) {
        assert l[..|s| - 1] == ToLower(s[..|s| - 1]);
        TrimEndLower(s[..|s| - 1]);
      }
    }
  }

  /** An identity is its own identity: it has no padding left to trim and is
      already lower case. */
  lemma NormalizeIdempotent(email: string)
    ensures Normalize(Normalize(email)) == Normalize(email)
  {
    var r := Normalize(email);
    assert TrimStart(r) == r;
    assert TrimEnd(r) == r;
    assert ToLower(r) == r;
  }

  /** Two addresses that differ only in letter case are one recipient. */
  lemma NormalizeIgnoresCase(s: string, t: string)
    requires ToLower(s) == ToLower(t)
    ensures Normalize(s) == Normalize(t)
  {
    TrimStartLower(s);
    TrimEndLower(TrimStart(s));
    TrimStartLower(t);
    TrimEndLower(TrimStart(t));
  }
}
