/** Message ids of internal/protocol/message.go. */
module Protocol {
  import opened Text

  /** RequestIDKey: the raw id without surrounding white space. */
  function RequestIDKey(id: string): string {
    TrimSpace(id)
  }

  function HexDigit(n: nat): char
    requires n < 16
  {
    if n < 10 then '0' + n as char else 'a' + (n - 10) as char
  }

  function UnicodeEscape(c: char): string {
    var n := c as int;
    "\\u" + [HexDigit(n / 4096 % 16), HexDigit(n / 256 % 16), HexDigit(n / 16 % 16), HexDigit(n % 16)]
  }

  /** How encoding/json writes one character of a string. */
  function EscapeChar(c: char): string {
    if c == '"' then "\\\""
    else if c == '\\' then "\\\\"
    else if c == '\U{8}' then "\\b"
    else if c == '\U{C}' then "\\f"
    else if c == '\n' then "\\n"
    else if c == '\r' then "\\r"
    else if c == '\t' then "\\t"
    else if c < ' ' || c == '<' || c == '>' || c == '&' || c == '\U{2028}' || c == '\U{2029}' then UnicodeEscape(c)
    else [c]
  }

  function Escaped(s: string): string {
    if s == "" then "" else EscapeChar(s[0]) + Escaped(s[1..])
  }

  /** protocol.StringID. */
  function StringID(s: string): string {
    "\"" + Escaped(s) + "\""
  }

  lemma {:induction false} EscapedConcat(a: string, b: string)
    ensures Escaped(a + b) == Escaped(a) + Escaped(b)
  {
    hide EscapeChar;
    if a == "" {
      assert a + b == b;
    } else {
      assert (a + b)[1..] == a[1..] + b;
      EscapedConcat(a[1..], b);
    }
  }

  predicate IsDigits(s: string) {
    forall i :: 0 <= i < |s| ==> '0' <= s[i] <= '9'
  }

  lemma {:induction false} EscapedDigits(s: string)
    requires IsDigits(s)
    ensures Escaped(s) == s
  {
    if s != "" {
      EscapedDigits(s[1..]);
      assert EscapeChar(s[0]) == [s[0]];
      assert s == [s[0]] + s[1..];
    }
  }

  lemma StringIDKey(s: string)
    ensures RequestIDKey(StringID(s)) == StringID(s)
  {
    hide Escaped, TrimSpace;
    var id := StringID(s);
    TrimSpacePadded("", id, "");
    assert "" + id + "" == id;
  }
}
