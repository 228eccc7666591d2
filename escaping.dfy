/**
 * The MySQL-style escaper of the statement builder (pkg/mysql/statements.go,
 * `Escape`). Seven bytes are written as a backslash followed by a letter;
 * every other byte, the backtick and `;` among them, is copied unchanged.
 */
module Escaping {
  import opened Text

  const Backslash: char := '\\'
  /** Go's '\032', the Windows end-of-file control character. */
  const CtrlZ: char := '\U{1A}'

  /** The bytes `Escape` rewrites. */
  predicate IsSpecial(c: char)
  {
    c == '\0' || c == '\n' || c == '\r' || c == '\\' || c == '\'' || c == '"' || c == CtrlZ
  }

  /** The letter `Escape` writes after the backslash for a special byte. */
  function Letter(c: char): char
    requires IsSpecial(c)
  {
    if c == '\0' then '0'
    else if c == '\n' then 'n'
    else if c == '\r' then 'r'
    else if c == CtrlZ then 'Z'
    else c  // backslash, single quote and double quote stand for themselves
  }

  /** What `Escape` appends for one input byte. */
  function EscapeChar(c: char): string
  {
    if IsSpecial(c) then [Backslash, Letter(c)] else [c]
  }

  /** The output of `Escape`, byte by byte. */
  function Escaped(s: string): (r: string)
    ensures |s| <= |r| <= 2 * |s|
  {
    if |s| == 0 then "" else EscapeChar(s[0]) + Escaped(s[1..])
  }

  /** Go's `Escape`: a loop that appends to `dest` one input byte at a time. */
  method Escape(sql: string) returns (r: string)
    ensures r == Escaped(sql)
  {
    var dest: string := [];
    for i := 0 to |sql|
      invariant dest == Escaped(sql[..i])
    {
      var c := sql[i];
      var escape: char := '\0';
      if c == '\0' {
        escape := '0';
      } else if c == '\n' {
        escape := 'n';
      } else if c == '\r' {
        escape := 'r';
      } else if c == '\\' {
        escape := '\\';
      } else if c == '\'' {
        escape := '\'';
      } else if c == '"' {
        escape := '"';
      } else if c == CtrlZ {
        escape := 'Z';
      }
      assert escape != '\0' <==> IsSpecial(c);
      assert IsSpecial(c) ==> escape == Letter(c);
      if escape != '\0' {
        dest := dest + [Backslash, escape];
      } else {
        dest := dest + [c];
      }
      assert sql[..i + 1] == sql[..i] + [c];
      EscapedSnoc(sql[..i], c);
    }
    assert sql[..|sql|] == sql;
    r := dest;
  }

  /** The table of `Escape`: seven bytes get a backslash and a letter; backtick and `;` are copied. */
  lemma EscapeTable(c: char)
    ensures c == '\0' ==> Escaped([c]) == "\\0"
    ensures c == '\n' ==> Escaped([c]) == "\\n"
    ensures c == '\r' ==> Escaped([c]) == "\\r"
    ensures c == '\\' ==> Escaped([c]) == "\\\\"
    ensures c == '\'' ==> Escaped([c]) == "\\'"
    ensures c == '"' ==> Escaped([c]) == "\\\""
    ensures c == CtrlZ ==> Escaped([c]) == "\\Z"
    ensures !IsSpecial(c) ==> Escaped([c]) == [c]
    ensures !IsSpecial('`') && !IsSpecial(';')
  {
    assert [c][1..] == [];
  }

  /** One more input byte appends its escape. */
  lemma EscapedSnoc(s: string, c: char)
    ensures Escaped(s + [c]) == Escaped(s) + EscapeChar(c)
  {
    EscapedConcat(s, [c]);
    assert [c][1..] == [];
  }

  /** Escaping works byte by byte, so it distributes over concatenation. */
  lemma {:induction false} EscapedConcat(a: string, b: string)
    ensures Escaped(a + b) == Escaped(a) + Escaped(b)
  {
    if |a| == 0 {
      assert a + b == b;
    } else {
      assert (a + b)[1..] == a[1..] + b;
      EscapedConcat(a[1..], b);
    }
  }

  /** The number of special bytes of `s`. */
  function SpecialCount(s: string): (n: nat)
  {
    if |s| == 0 then 0 else (if IsSpecial(s[0]) then 1 else 0) + SpecialCount(s[1..])
  }

  /** The output grows by exactly one byte per special input byte. */
  lemma {:induction false} EscapedLength(s: string)
    ensures |Escaped(s)| == |s| + SpecialCount(s)
  {
    if |s| > 0 { EscapedLength(s[1..]); }
  }

  /** A string without special bytes (backticks and `;` included) comes out unchanged. */
  lemma {:induction false} PlainTextUnchanged(s: string)
    requires forall i :: 0 <= i < |s| ==> !IsSpecial(s[i])
    ensures Escaped(s) == s
  {
    if |s| > 0 {
      PlainTextUnchanged(s[1..]);
      assert s == [s[0]] + s[1..];
    }
  }

  /** In the output every quote byte directly follows a backslash. */
  lemma {:induction false} QuotesFollowBackslash(s: string)
    ensures forall i :: 0 <= i < |Escaped(s)| && (Escaped(s)[i] == '\'' || Escaped(s)[i] == '"') ==>
              0 < i && Escaped(s)[i - 1] == Backslash
  {
    if |s| > 0 {
      QuotesFollowBackslash(s[1..]);
      var head, tail := EscapeChar(s[0]), Escaped(s[1..]);
      assert Escaped(s) == head + tail;
      forall i | 0 <= i < |head + tail| && ((head + tail)[i] == '\'' || (head + tail)[i] == '"')
        ensures 0 < i && (head + tail)[i - 1] == Backslash
      {
        if i >= |head| {
          assert (head + tail)[i] == tail[i - |head|];
        }
      }
    }
  }

  /** Escaping keeps the number of quotes, backticks and semicolons. */
  lemma {:induction false} CountKept(s: string, q: char)
    requires q == '\'' || q == '"' || q == '`' || q == ';'
    ensures Count(Escaped(s), q) == Count(s, q)
  {
    if |s| > 0 {
      CountKept(s[1..], q);
      CountConcat(EscapeChar(s[0]), Escaped(s[1..]), q);
      if IsSpecial(s[0]) {
        assert EscapeChar(s[0])[1..] == [Letter(s[0])];
      }
    }
  }

  /** The byte a backslash sequence of `Escaped` stands for: the inverse of `Letter`. */
  function Unletter(c: char): char
  {
    if c == '0' then '\0'
    else if c == 'n' then '\n'
    else if c == 'r' then '\r'
    else if c == 'Z' then CtrlZ
    else c
  }

  /** Undoes `Escaped`: a backslash and the letter after it become the byte `Letter` maps to that letter. */
  function Unescape(t: string): string
  {
    if |t| == 0 then ""
    else if t[0] == Backslash && |t| >= 2 then [Unletter(t[1])] + Unescape(t[2..])
    else [t[0]] + Unescape(t[1..])
  }

  /** `Unescape` is a left inverse of `Escaped`. */
  lemma {:induction false} UnescapeEscaped(s: string)
    ensures Unescape(Escaped(s)) == s
  {
    if |s| > 0 {
      UnescapeEscaped(s[1..]);
      UnescapeFront(s[0], Escaped(s[1..]));
      assert s == [s[0]] + s[1..];
    }
  }

  /** Reading back the escape of one byte, followed by more text, yields that byte first. */
  lemma UnescapeFront(c: char, rest: string)
    ensures Unescape(EscapeChar(c) + rest) == [c] + Unescape(rest)
  {
    var t := EscapeChar(c) + rest;
    if IsSpecial(c) {
      assert t[0] == Backslash && t[1] == Letter(c) && t[2..] == rest;
      assert Unletter(Letter(c)) == c;
    } else {
      assert t[0] == c && t[1..] == rest;
    }
  }

  /** Distinct strings escape to distinct strings. */
  lemma EscapedInjective(a: string, b: string)
    requires Escaped(a) == Escaped(b)
    ensures a == b
  {
    UnescapeEscaped(a);
    UnescapeEscaped(b);
  }
}
