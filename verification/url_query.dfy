/**
 * Query-component escaping of Go's net/url (`QueryEscape`, `QueryUnescape`),
 * which the input validator and the FH2 adapter rely on. Strings are byte
 * strings, one byte per char.
 */
module UrlQuery {
  import opened Common

  /** Value of one hex digit. */
  function HexValue(c: char): (v: nat)
    requires IsHexDigit(c)
    ensures v < 16
  {
    if '0' <= c <= '9' then c as int - '0' as int
    else if 'a' <= c <= 'f' then c as int - 'a' as int + 10
    else c as int - 'A' as int + 10
  }

  /** Upper-case hex digit of `n`, as `QueryEscape` writes it. */
  function HexChar(n: nat): (c: char)
    requires n < 16
    ensures IsHexDigit(c) && HexValue(c) == n
  {
    if n < 10 then ('0' as int + n) as char else ('A' as int + n - 10) as char
  }

  /** Bytes that `QueryEscape` copies unchanged. */
  predicate IsUnreserved(c: char) {
    ('0' <= c <= '9') || ('a' <= c <= 'z') || ('A' <= c <= 'Z') || c == '-' || c == '_' || c == '.' || c == '~'
  }

  function EscapeByte(c: char): string
    requires c as int < 256
  {
    if IsUnreserved(c) then [c]
    else if c == ' ' then "+"
    else ['%', HexChar(c as int / 16), HexChar(c as int % 16)]
  }

  /** `url.QueryEscape`. */
  function QueryEscape(s: ByteString): (r: string)
    ensures |r| >= |s|
    ensures r == "" <==> s == ""
  {
    if s == "" then "" else EscapeByte(s[0]) + QueryEscape(s[1..])
  }

  /** `url.QueryUnescape`: fails on a '%' without two hex digits after it, maps '+' to ' '. */
  function QueryUnescape(s: string): (r: Option<string>)
    ensures r.Some? ==> |r.value| <= |s|
    ensures r.Some? && |r.value| == |s| ==> '%' !in s
    ensures '%' !in s && '+' !in s ==> r == Some(s)
    decreases |s|
  {
    if s == "" then Some("")
    else if s[0] == '%' then
      if |s| < 3 || !IsHexDigit(s[1]) || !IsHexDigit(s[2]) then None
      else match QueryUnescape(s[3..])
        case None => None
        case Some(t) => Some([(HexValue(s[1]) * 16 + HexValue(s[2])) as char] + t)
    else
      assert s == [s[0]] + s[1..];
      match QueryUnescape(s[1..])
      case None => None
      case Some(t) => Some([if s[0] == '+' then ' ' else s[0]] + t)
  }

  /** Every '%' is followed by two hex digits. */
  predicate PercentEscapesWellFormed(s: string) {
    forall i | 0 <= i < |s| && s[i] == '%' :: i + 2 < |s| && IsHexDigit(s[i + 1]) && IsHexDigit(s[i + 2])
  }

  /** Unescaping fails exactly on a malformed percent escape. */
  lemma {:induction false} UnescapeSucceedsIffWellFormed(s: string)
    ensures QueryUnescape(s).Some? <==> PercentEscapesWellFormed(s)
    decreases |s|
  {
    if s == "" {
    } else if s[0] == '%' {
      if |s| < 3 || !IsHexDigit(s[1]) || !IsHexDigit(s[2]) {
        assert !PercentEscapesWellFormed(s) by { assert s[0] == '%'; }
      } else {
        UnescapeSucceedsIffWellFormed(s[3..]);
        forall i | 0 <= i < |s[3..]| ensures s[3..][i] == s[i + 3] { }
        assert PercentEscapesWellFormed(s) <==> PercentEscapesWellFormed(s[3..]) by {
          if PercentEscapesWellFormed(s) {
            forall i | 0 <= i < |s[3..]| && s[3..][i] == '%'
              ensures i + 2 < |s[3..]| && IsHexDigit(s[3..][i + 1]) && IsHexDigit(s[3..][i + 2])
            {
              assert s[i + 3] == '%';
            }
          }
          if PercentEscapesWellFormed(s[3..]) {
            forall i | 0 <= i < |s| && s[i] == '%'
              ensures i + 2 < |s| && IsHexDigit(s[i + 1]) && IsHexDigit(s[i + 2])
            {
              if i >= 3 {
                assert s[3..][i - 3] == '%';
              } else {
                assert i == 0;
              }
            }
          }
        }
      }
    } else {
      UnescapeSucceedsIffWellFormed(s[1..]);
      assert PercentEscapesWellFormed(s) <==> PercentEscapesWellFormed(s[1..]) by {
        if PercentEscapesWellFormed(s) {
          forall i | 0 <= i < |s[1..]| && s[1..][i] == '%'
            ensures i + 2 < |s[1..]| && IsHexDigit(s[1..][i + 1]) && IsHexDigit(s[1..][i + 2])
          {
            assert s[i + 1] == '%';
          }
        }
        if PercentEscapesWellFormed(s[1..]) {
          forall i | 0 <= i < |s| && s[i] == '%'
            ensures i + 2 < |s| && IsHexDigit(s[i + 1]) && IsHexDigit(s[i + 2])
          {
            assert i >= 1;
            assert s[1..][i - 1] == '%';
          }
        }
      }
    }
  }

  /** Unescaping one escaped byte followed by anything yields that byte first. */
  lemma UnescapeEscapedByte(c: char, rest: string)
    requires c as int < 256
    ensures QueryUnescape(EscapeByte(c) + rest) ==
              match QueryUnescape(rest) case None => None case Some(t) => Some([c] + t)
  {
    var e := EscapeByte(c) + rest;
    if IsUnreserved(c) {
      assert e[0] == c && e[1..] == rest;
    } else if c == ' ' {
      assert e[0] == '+' && e[1..] == rest;
    } else {
      assert e[0] == '%' && e[3..] == rest;
      assert HexValue(e[1]) * 16 + HexValue(e[2]) == c as int;
    }
  }

  /** Unescaping undoes escaping: the escaped form of any byte string is accepted and decodes back. */
  lemma {:induction false} UnescapeInvertsEscape(s: ByteString)
    ensures QueryUnescape(QueryEscape(s)) == Some(s)
    decreases |s|
  {
    if s != "" {
      UnescapeInvertsEscape(s[1..]);
      UnescapeEscapedByte(s[0], QueryEscape(s[1..]));
      assert [s[0]] + s[1..] == s;
    }
  }
}
