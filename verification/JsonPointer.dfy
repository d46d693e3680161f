// JSON Pointer text: token escaping, the printer, and its inverse (sections 3 and 4
// of RFC 6901).

module JsonPointer {
  /** A step into a value: an object key or a list index. */
  datatype Part = Key(key: string) | Index(index: nat)

  function Digit(d: nat): char
    requires d < 10
  {
    "0123456789"[d]
  }

  /** `str(n)`. */
  function Decimal(n: nat): string {
    if n < 10 then [Digit(n)] else Decimal(n / 10) + [Digit(n % 10)]
  }

  function Text(p: Part): string {
    match p
    case Key(k) => k
    case Index(i) => Decimal(i)
  }

  function Texts(parts: seq<Part>): (r: seq<string>)
    ensures |r| == |parts|
  {
    seq(|parts|, i requires 0 <= i < |parts| => Text(parts[i]))
  }

  /** `s.replace(c, sub)` for a single character. */
  function ReplaceChar(s: string, c: char, sub: string): string {
    if s == "" then "" else (if s[0] == c then sub else [s[0]]) + ReplaceChar(s[1..], c, sub)
  }

  function Escape(token: string): string {
    ReplaceChar(ReplaceChar(token, '~', "~0"), '/', "~1")
  }

  /** `"/".join(tokens)`. */
  function Join(tokens: seq<string>): string {
    if tokens == [] then "" else if |tokens| == 1 then tokens[0] else tokens[0] + "/" + Join(tokens[1..])
  }

  function EscapeAll(tokens: seq<string>): (r: seq<string>)
    ensures |r| == |tokens|
  {
    seq(|tokens|, i requires 0 <= i < |tokens| => Escape(tokens[i]))
  }

  /** The printer; it writes the whole document as "/". */
  function Pointer(parts: seq<Part>): string {
    if parts == [] then "/" else "/" + Join(EscapeAll(Texts(parts)))
  }

  // -------------------------------------------------------------------- decoding

  /** `s.replace("~" + d, r)`. */
  function ReplacePair(s: string, d: char, r: char): string {
    if s == "" then ""
    else if |s| >= 2 && s[0] == '~' && s[1] == d then [r] + ReplacePair(s[2..], d, r)
    else [s[0]] + ReplacePair(s[1..], d, r)
  }

  /** Section 4: first ~1 becomes a slash, then ~0 becomes a tilde. */
  function Unescape(token: string): string {
    ReplacePair(ReplacePair(token, '1', '/'), '0', '~')
  }

  function SplitSlash(s: string): (r: seq<string>)
    ensures r != []
  {
    if s == "" then [""]
    else
      var rest := SplitSlash(s[1..]);
      if s[0] == '/' then [""] + rest else [[s[0]] + rest[0]] + rest[1..]
  }

  function Decode(pointer: string): seq<string>
    requires pointer != ""
  {
    var tokens := SplitSlash(pointer[1..]);
    seq(|tokens|, i requires 0 <= i < |tokens| => Unescape(tokens[i]))
  }

  // ------------------------------------------------------------------ round trip

  function Tilde(s: string): string {
    ReplaceChar(s, '~', "~0")
  }

  lemma {:induction false} EscapeStep(s: string)
    requires s != ""
    ensures Escape(s) ==
      (if s[0] == '~' then "~0" else if s[0] == '/' then "~1" else [s[0]]) + Escape(s[1..])
  {
    var t := Tilde(s[1..]);
    if s[0] == '~' {
      assert Tilde(s) == ['~'] + (['0'] + t);
      assert (['~'] + (['0'] + t))[1..] == ['0'] + t && (['0'] + t)[1..] == t;
      assert ReplaceChar(['0'] + t, '/', "~1") == ['0'] + ReplaceChar(t, '/', "~1");
    } else {
      assert Tilde(s) == [s[0]] + t;
      assert ([s[0]] + t)[1..] == t;
    }
  }

  lemma {:induction false} EscapeHasNoSlash(s: string)
    ensures '/' !in Escape(s)
  {
    if s != "" {
      EscapeStep(s);
      EscapeHasNoSlash(s[1..]);
    }
  }

  /** Undoing the slashes leaves only the tildes escaped. */
  lemma {:induction false} UnslashEscape(s: string)
    ensures ReplacePair(Escape(s), '1', '/') == Tilde(s)
  {
    if s != "" {
      EscapeStep(s);
      UnslashEscape(s[1..]);
      var e := Escape(s[1..]);
      if s[0] == '~' {
        assert ("~0" + e)[1..] == ['0'] + e && (['0'] + e)[1..] == e;
        assert ReplacePair(['0'] + e, '1', '/') == ['0'] + ReplacePair(e, '1', '/');
      } else if s[0] == '/' {
        assert ("~1" + e)[2..] == e;
      } else {
        assert ([s[0]] + e)[1..] == e;
      }
    }
  }

  lemma {:induction false} UntildeTilde(s: string)
    ensures ReplacePair(Tilde(s), '0', '~') == s
  {
    if s != "" {
      UntildeTilde(s[1..]);
      var t := Tilde(s[1..]);
      if s[0] == '~' {
        assert ("~0" + t)[2..] == t;
      } else {
        assert ([s[0]] + t)[1..] == t;
      }
      assert s == [s[0]] + s[1..];
    }
  }

  /** Decoding undoes token escaping. */
  lemma EscapeRoundTrip(s: string)
    ensures Unescape(Escape(s)) == s
  {
    UnslashEscape(s);
    UntildeTilde(s);
  }

  lemma {:induction false} SplitOne(token: string)
    requires '/' !in token
    ensures SplitSlash(token) == [token]
  {
    if token != "" {
      SplitOne(token[1..]);
      assert token == [token[0]] + token[1..];
    }
  }

  lemma {:induction false} SplitFirst(token: string, rest: string)
    requires '/' !in token
    ensures SplitSlash(token + "/" + rest) == [token] + SplitSlash(rest)
  {
    var s := token + "/" + rest;
    if token == "" {
      assert s[1..] == rest;
    } else {
      SplitFirst(token[1..], rest);
      assert s[1..] == token[1..] + "/" + rest;
      assert token == [token[0]] + token[1..];
    }
  }

  lemma {:induction false} SplitJoin(tokens: seq<string>)
    requires tokens != [] && forall i :: 0 <= i < |tokens| ==> '/' !in tokens[i]
    ensures SplitSlash(Join(tokens)) == tokens
  {
    if |tokens| == 1 {
      SplitOne(tokens[0]);
    } else {
      SplitJoin(tokens[1..]);
      SplitFirst(tokens[0], Join(tokens[1..]));
      assert tokens == [tokens[0]] + tokens[1..];
    }
  }

  /** Decoding a printed pointer gives the texts of its parts back. */
  lemma PointerRoundTrip(parts: seq<Part>)
    requires parts != []
    ensures Decode(Pointer(parts)) == Texts(parts)
  {
    var escaped := EscapeAll(Texts(parts));
    forall i | 0 <= i < |escaped|
      ensures '/' !in escaped[i] && Unescape(escaped[i]) == Texts(parts)[i]
    {
      EscapeHasNoSlash(Texts(parts)[i]);
      EscapeRoundTrip(Texts(parts)[i]);
    }
    SplitJoin(escaped);
    assert Pointer(parts)[1..] == Join(escaped);
  }

  /** The text of the whole document is also that of its member with the empty key. */
  lemma RootTextExactlyWhen(parts: seq<Part>)
    ensures Pointer(parts) == Pointer([]) <==> parts == [] || Texts(parts) == [""]
  {
    if parts != [] {
      PointerRoundTrip(parts);
      var key := [Key("")];
      PointerRoundTrip(key);
      assert Texts(key) == [""];
      assert Escape("") == "";
      assert EscapeAll(Texts(key)) == [""];
      assert Pointer(key) == "/";
      if Texts(parts) == [""] {
        assert EscapeAll(Texts(parts)) == [""];
      }
    }
  }

  /** Character by character: a tilde becomes ~0, a slash ~1, anything else stays. */
  lemma {:induction false} EscapeByCharacter(a: string, b: string)
    ensures Escape(a + b) == Escape(a) + Escape(b)
    ensures Escape("~") == "~0" && Escape("/") == "~1"
    ensures forall c: char :: c != '~' && c != '/' ==> Escape([c]) == [c]
  {
    EscapeStep("~");
    EscapeStep("/");
    forall c: char | c != '~' && c != '/'
      ensures Escape([c]) == [c]
    {
      EscapeStep([c]);
    }
    if a == "" {
      assert a + b == b;
    } else {
      EscapeByCharacter(a[1..], b);
      EscapeStep(a);
      EscapeStep(a + b);
      assert (a + b)[1..] == a[1..] + b;
    }
  }

  lemma {:induction false} JoinExtends(tokens: seq<string>, token: string)
    requires tokens != []
    ensures Join(tokens + [token]) == Join(tokens) + "/" + token
  {
    if |tokens| > 1 {
      JoinExtends(tokens[1..], token);
      assert (tokens + [token])[1..] == tokens[1..] + [token];
    } else {
      assert (tokens + [token])[1..] == [token];
    }
  }

  /** A further step appends a slash and its escaped text. */
  lemma PointerExtends(parts: seq<Part>, part: Part)
    ensures Pointer(parts + [part]) == (if parts == [] then "" else Pointer(parts)) + "/" + Escape(Text(part))
  {
    var tokens := EscapeAll(Texts(parts));
    assert EscapeAll(Texts(parts + [part])) == tokens + [Escape(Text(part))];
    if parts != [] {
      JoinExtends(tokens, Escape(Text(part)));
    }
  }

  /** The number a decimal text stands for. */
  ghost function NumberOf(s: string): int {
    if s == "" then 0 else 10 * NumberOf(s[..|s| - 1]) + (s[|s| - 1] as int - '0' as int)
  }

  /** The text of an index has digits only, no leading zero, and stands for the index. */
  lemma {:induction false} DecimalStandsForIndex(n: nat)
    ensures NumberOf(Decimal(n)) == n
    ensures forall c :: c in Decimal(n) ==> '0' <= c <= '9'
    ensures Decimal(n) != "" && (n > 0 ==> Decimal(n)[0] != '0')
  {
    DigitStandsFor(n % 10);
    if n >= 10 {
      DecimalStandsForIndex(n / 10);
      var s := Decimal(n);
      assert s[..|s| - 1] == Decimal(n / 10) && s[|s| - 1] == Digit(n % 10);
    } else {
      assert [Digit(n)][..0] == "";
    }
  }

  lemma DigitStandsFor(d: nat)
    requires d < 10
    ensures Digit(d) as int - '0' as int == d
  {
  }

  // ----------------------------------------------------------------- injectivity

  lemma DigitInjective(a: nat, b: nat)
    requires a < 10 && b < 10 && Digit(a) == Digit(b)
    ensures a == b
  {
  }

  lemma {:induction false} DecimalInjective(a: nat, b: nat)
    requires Decimal(a) == Decimal(b)
    ensures a == b
  {
    var s := Decimal(a);
    DecimalNotEmpty(a / 10);
    DecimalNotEmpty(b / 10);
    assert s[|s| - 1] == Digit(a % 10) && s[|s| - 1] == Digit(b % 10);
    DigitInjective(a % 10, b % 10);
    if a >= 10 && b >= 10 {
      assert s[..|s| - 1] == Decimal(a / 10);
      assert s[..|s| - 1] == Decimal(b / 10);
      DecimalInjective(a / 10, b / 10);
    }
  }

  lemma {:induction false} DecimalNotEmpty(n: nat)
    ensures Decimal(n) != ""
  {
    if n >= 10 {
      DecimalNotEmpty(n / 10);
    }
  }
}
