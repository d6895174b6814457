/** The two pieces of java.lang text handling the control API relies on:
    `String.split("\\/")` (split at every '/', then drop trailing empty
    strings; an input without '/' comes back whole) and `Integer.toString`
    (decimal text of a port), with `Integer.parseInt` as its partner. */
module JavaText {

  /** The pieces of `s` between consecutive '/' characters, every empty
      piece kept: one more piece than there are separators. */
  function Pieces(s: string): (r: seq<string>)
    ensures |r| >= 1
    ensures forall i :: 0 <= i < |r| ==> '/' !in r[i]
    decreases |s|
  {
    if s == "" then [""]
    else
      var rest := Pieces(s[1..]);
      if s[0] == '/' then [""] + rest
      else [[s[0]] + rest[0]] + rest[1..]
  }

  /** Glues pieces back together with '/' between them. */
  function Join(parts: seq<string>): string
    requires |parts| >= 1
    decreases |parts|
  {
    if |parts| == 1 then parts[0] else parts[0] + "/" + Join(parts[1..])
  }

  /** Splitting and joining again gives back the original text. */
  lemma {:induction false} JoinPieces(s: string)
    ensures Join(Pieces(s)) == s
    decreases |s|
  {
    if s != "" {
      var rest := Pieces(s[1..]);
      JoinPieces(s[1..]);
      if s[0] == '/' {
        assert Pieces(s)[1..] == rest;
        assert s == "/" + s[1..];
      } else if |rest| == 1 {
        assert s == [s[0]] + s[1..];
      } else {
        var r := Pieces(s);
        assert r[1..] == rest[1..];
        assert Join(rest) == rest[0] + "/" + Join(rest[1..]);
        assert s == [s[0]] + s[1..];
      }
    }
  }

  /** Text without a separator is a single piece. */
  lemma {:induction false} PiecesOfPlainText(a: string)
    requires '/' !in a
    ensures Pieces(a) == [a]
    decreases |a|
  {
    if a != "" {
      assert '/' !in a[1..] by {
        forall i | 0 <= i < |a[1..]| ensures a[1..][i] != '/' {
          assert a[1..][i] == a[i + 1];
        }
      }
      PiecesOfPlainText(a[1..]);
      assert [a[0]] + a[1..] == a;
    }
  }

  /** A separator-free prefix followed by '/' becomes the first piece. */
  lemma {:induction false} PiecesAfterSeparator(a: string, b: string)
    requires '/' !in a
    ensures Pieces(a + "/" + b) == [a] + Pieces(b)
    decreases |a|
  {
    var s := a + "/" + b;
    if a == "" {
      assert s == "/" + b;
      assert s[1..] == b;
    } else {
      assert '/' !in a[1..] by {
        forall i | 0 <= i < |a[1..]| ensures a[1..][i] != '/' {
          assert a[1..][i] == a[i + 1];
        }
      }
      PiecesAfterSeparator(a[1..], b);
      assert s[1..] == a[1..] + "/" + b;
      assert s[0] == a[0];
      assert [a[0]] + a[1..] == a;
    }
  }

  /** Joining separator-free pieces and splitting again gives back every piece. */
  lemma {:induction false} PiecesOfJoin(parts: seq<string>)
    requires |parts| >= 1
    requires forall i :: 0 <= i < |parts| ==> '/' !in parts[i]
    ensures Pieces(Join(parts)) == parts
    decreases |parts|
  {
    if |parts| == 1 {
      PiecesOfPlainText(parts[0]);
    } else {
      PiecesOfJoin(parts[1..]);
      PiecesAfterSeparator(parts[0], Join(parts[1..]));
      assert [parts[0]] + parts[1..] == parts;
    }
  }

  /** Java's removal of trailing empty strings from a split result. */
  function DropTrailingEmpty(r: seq<string>): (d: seq<string>)
    ensures |d| <= |r| && d == r[..|d|]
    ensures |d| > 0 ==> d[|d| - 1] != ""
    ensures forall i :: |d| <= i < |r| ==> r[i] == ""
    decreases |r|
  {
    if |r| == 0 then []
    else if r[|r| - 1] == "" then DropTrailingEmpty(r[..|r| - 1])
    else r
  }

  /** `s.split("\\/")` with Java's default limit of zero. */
  function Split(s: string): (r: seq<string>)
    ensures forall i :: 0 <= i < |r| ==> '/' !in r[i]
    ensures '/' !in s ==> r == [s]
    ensures '/' in s ==> |r| <= |Pieces(s)| && r == Pieces(s)[..|r|]
    ensures '/' in s ==> (|r| > 0 ==> r[|r| - 1] != "") && forall i :: |r| <= i < |Pieces(s)| ==> Pieces(s)[i] == ""
  {
    if '/' !in s then [s] else DropTrailingEmpty(Pieces(s))
  }

  /** The control API's token path splits into exactly three segments, with
      or without a trailing '/'. */
  lemma SplitTokenPath(id: string)
    requires id != "" && '/' !in id
    ensures Split("/token/" + id) == ["", "token", id]
    ensures Split("/token/" + id + "/") == ["", "token", id]
  {
    var parts := ["", "token", id];
    PiecesOfPlainText(id);
    PiecesAfterSeparator("token", id);
    PiecesAfterSeparator("", "token/" + id);
    assert "/token/" + id == "" + "/" + ("token" + "/" + id);
    assert Pieces("/token/" + id) == parts;
    assert '/' in "/token/" + id by { assert ("/token/" + id)[0] == '/'; }
    assert DropTrailingEmpty(parts) == parts;

    PiecesOfPlainText("");
    PiecesAfterSeparator(id, "");
    PiecesAfterSeparator("token", id + "/");
    PiecesAfterSeparator("", "token/" + id + "/");
    assert "/token/" + id + "/" == "" + "/" + ("token/" + id + "/");
    assert "token/" + id + "/" == "token" + "/" + (id + "/");
    assert id + "/" == id + "/" + "";
    assert Pieces("/token/" + id + "/") == parts + [""];
    assert '/' in "/token/" + id + "/" by { assert ("/token/" + id + "/")[0] == '/'; }
    assert (parts + [""])[..|parts|] == parts;
  }

  /** A path consisting of "/token/" alone keeps only two segments. */
  lemma SplitBareTokenPath()
    ensures Split("/token/") == ["", "token"]
  {
    PiecesOfPlainText("");
    PiecesAfterSeparator("token", "");
    PiecesAfterSeparator("", "token/");
    assert "/token/" == "" + "/" + ("token" + "/" + "");
    assert Pieces("/token/") == ["", "token", ""];
    assert "/token/"[0] == '/';
    assert ["", "token", ""][..2] == ["", "token"];
  }

  /** The root path splits into no segment at all. */
  lemma SplitRoot()
    ensures Split("/") == []
  {
  }

  /** Numeric value of a decimal digit character. */
  function DigitValue(c: char): int
  {
    c as int - '0' as int
  }

  /** The character for a decimal digit. */
  function DigitChar(d: int): (c: char)
    requires 0 <= d < 10
    ensures '0' <= c <= '9' && DigitValue(c) == d
  {
    ('0' as int + d) as char
  }

  /** Decimal text of a natural number, without leading zeros. */
  function NatToString(n: nat): (s: string)
    ensures |s| >= 1
    ensures forall i :: 0 <= i < |s| ==> '0' <= s[i] <= '9'
    ensures |s| > 1 ==> s[0] != '0'
    decreases n
  {
    if n < 10 then [DigitChar(n)] else NatToString(n / 10) + [DigitChar(n % 10)]
  }

  /** `Integer.toString`: decimal text with a leading '-' for negatives. */
  function IntToString(n: int): (s: string)
    ensures |s| >= 1
    ensures s[0] == '-' <==> n < 0
    ensures forall i :: (if n < 0 then 1 else 0) <= i < |s| ==> '0' <= s[i] <= '9'
    ensures var k := if n < 0 then 1 else 0; |s| > k && (|s| > k + 1 ==> s[k] != '0')
  {
    if n < 0 then "-" + NatToString(-n) else NatToString(n)
  }

  /** Value of a string of decimal digits. */
  function ParseNat(s: string): int
    decreases |s|
  {
    if s == "" then 0 else ParseNat(s[..|s| - 1]) * 10 + DigitValue(s[|s| - 1])
  }

  /** `Integer.parseInt` on well-formed input: optional '-' and digits. */
  function ParseInt(s: string): int
  {
    if |s| > 0 && s[0] == '-' then -ParseNat(s[1..]) else ParseNat(s)
  }

  lemma {:induction false} ParseNatToString(n: nat)
    ensures ParseNat(NatToString(n)) == n
    decreases n
  {
    if n >= 10 {
      var s := NatToString(n);
      ParseNatToString(n / 10);
      assert s[..|s| - 1] == NatToString(n / 10);
    }
  }

  /** Reading the decimal text back gives the number that was written. */
  lemma ParseIntToString(n: int)
    ensures ParseInt(IntToString(n)) == n
  {
    if n < 0 {
      ParseNatToString(-n);
      assert IntToString(n)[1..] == NatToString(-n);
    } else {
      ParseNatToString(n);
    }
  }

}
