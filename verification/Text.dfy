/** The printer behind every canonical_bytes: decimal integers, colon-separated fields,
    semicolon-terminated records. The main result is that printing loses nothing. */
module Text {

  function Digit(d: int): char
    requires 0 <= d < 10
  {
    ('0' as int + d) as char
  }

  function NatStr(n: nat): string {
    if n < 10 then [Digit(n)] else NatStr(n / 10) + [Digit(n % 10)]
  }

  /** Python's str() of an int. */
  function Str(n: int): string {
    if n < 0 then "-" + NatStr(-n) else NatStr(n)
  }

  ghost predicate Clean(s: string) {
    ':' !in s && ';' !in s && ',' !in s
  }

  lemma {:induction false} NatStrDigits(n: nat)
    ensures NatStr(n) != []
    ensures forall c :: c in NatStr(n) ==> '0' <= c <= '9'
  {
    if n >= 10 { NatStrDigits(n / 10); }
  }

  /** The number a string of decimal digits stands for. */
  function Numeral(s: string): int {
    if s == "" then 0 else 10 * Numeral(s[..|s| - 1]) + (s[|s| - 1] as int - '0' as int)
  }

  /** The integer a decimal string stands for, with an optional minus sign. */
  function ReadInt(s: string): int {
    if s != "" && s[0] == '-' then -Numeral(s[1..]) else Numeral(s)
  }

  lemma {:induction false} NatStrReads(n: nat)
    ensures Numeral(NatStr(n)) == n
    ensures NatStr(n) != [] && (n > 0 ==> NatStr(n)[0] != '0')
  {
    if n < 10 {
      assert [Digit(n)][..0] == "";
    } else {
      NatStrReads(n / 10);
      assert NatStr(n)[..|NatStr(n)| - 1] == NatStr(n / 10);
    }
  }

  lemma StrClean(n: int)
    ensures Clean(Str(n)) && Str(n) != []
  {
    NatStrDigits(if n < 0 then -n else n);
  }

  /** Printing an integer and reading it back gives the integer; no numeral starts with a padding zero. */
  lemma StrReads(n: int)
    ensures ReadInt(Str(n)) == n
    ensures Str(n) != [] && (n != 0 ==> Str(n)[0] != '0')
  {
    var m := if n < 0 then -n else n;
    NatStrReads(m);
    NatStrDigits(m);
    assert NatStr(m)[0] in NatStr(m);
    if n < 0 { assert Str(n)[1..] == NatStr(m); }
  }

  /** Decimal printing determines the integer, sign included. */
  lemma StrInjective(a: int, b: int)
    requires Str(a) == Str(b)
    ensures a == b
  {
    StrReads(a);
    StrReads(b);
  }

  // ----- separators -----

  function Join(fields: seq<string>, sep: char): string {
    if fields == [] then "" else if |fields| == 1 then fields[0]
    else fields[0] + [sep] + Join(fields[1..], sep)
  }

  lemma SplitUnique(a: string, x: string, b: string, y: string, sep: char)
    requires a + [sep] + x == b + [sep] + y
    requires sep !in a && sep !in b
    ensures a == b && x == y
  {
    var s, t := a + [sep] + x, b + [sep] + y;
    assert s[|a|] == sep && t[|b|] == sep;
    assert forall i :: 0 <= i < |a| ==> s[i] == a[i] != sep;
    assert forall i :: 0 <= i < |b| ==> t[i] == b[i] != sep;
    assert a == s[..|a|] && b == t[..|b|];
    assert x == s[|a| + 1..] && y == t[|b| + 1..];
  }

  lemma {:induction false} JoinChars(fields: seq<string>, sep: char, c: char)
    requires c != sep && forall f :: f in fields ==> c !in f
    ensures c !in Join(fields, sep)
  {
    if |fields| > 1 { JoinChars(fields[1..], sep, c); }
  }

  lemma {:induction false} JoinInjective(fs: seq<string>, gs: seq<string>, sep: char)
    requires fs != [] && gs != []
    requires forall f :: f in fs || f in gs ==> sep !in f
    requires Join(fs, sep) == Join(gs, sep)
    ensures fs == gs
  {
    assert |fs| > 1 ==> sep in Join(fs, sep);
    assert |gs| > 1 ==> sep in Join(gs, sep);
    assert |fs| == 1 ==> sep !in Join(fs, sep);
    assert |gs| == 1 ==> sep !in Join(gs, sep);
    if |fs| > 1 && |gs| > 1 {
      SplitUnique(fs[0], Join(fs[1..], sep), gs[0], Join(gs[1..], sep), sep);
      JoinInjective(fs[1..], gs[1..], sep);
      assert fs == [fs[0]] + fs[1..] && gs == [gs[0]] + gs[1..];
    }
  }

  // ----- comma lists of ids -----

  function Strs(ids: seq<int>): seq<string> {
    seq(|ids|, i requires 0 <= i < |ids| => Str(ids[i]))
  }

  function Commas(ids: seq<int>): string { Join(Strs(ids), ',') }

  lemma CommasInjective(a: seq<int>, b: seq<int>)
    requires Commas(a) == Commas(b)
    ensures a == b
  {
    forall i | 0 <= i < |a| ensures Clean(Strs(a)[i]) && Strs(a)[i] != [] { StrClean(a[i]); }
    forall i | 0 <= i < |b| ensures Clean(Strs(b)[i]) && Strs(b)[i] != [] { StrClean(b[i]); }
    assert a != [] ==> |Strs(a)[0]| > 0 && Commas(a) != "";
    assert b != [] ==> |Strs(b)[0]| > 0 && Commas(b) != "";
    if a != [] && b != [] {
      JoinInjective(Strs(a), Strs(b), ',');
      forall i | 0 <= i < |a| ensures a[i] == b[i] {
        assert Strs(a)[i] == Strs(b)[i];
        StrInjective(a[i], b[i]);
      }
    }
  }

  lemma CommasPlain(ids: seq<int>)
    ensures ':' !in Commas(ids) && ';' !in Commas(ids)
  {
    forall i | 0 <= i < |ids| ensures Clean(Strs(ids)[i]) { StrClean(ids[i]); }
    JoinChars(Strs(ids), ',', ':');
    JoinChars(Strs(ids), ',', ';');
  }

  // ----- records -----

  type Record = seq<string>

  ghost predicate PlainRecord(r: Record) {
    r != [] && forall f :: f in r ==> ':' !in f && ';' !in f
  }

  function Line(r: Record): string { Join(r, ':') + ";" }

  function Render(records: seq<Record>): string {
    if records == [] then "" else Line(records[0]) + Render(records[1..])
  }

  lemma {:induction false} RenderAppend(records: seq<Record>, r: Record)
    ensures Render(records + [r]) == Render(records) + Line(r)
  {
    if records == [] {
      assert [r][1..] == [] && Render([]) == "";
      assert records + [r] == [r];
    } else {
      RenderAppend(records[1..], r);
      assert (records + [r])[1..] == records[1..] + [r];
    }
  }

  /** The loop step of every canonical_bytes: one more piece, one more line. */
  lemma RenderNext(head: seq<Record>, section: seq<Record>, i: nat)
    requires i < |section|
    ensures Render(head + section[..i + 1]) == Render(head + section[..i]) + Line(section[i])
  {
    RenderAppend(head + section[..i], section[i]);
    assert head + section[..i + 1] == head + section[..i] + [section[i]];
  }

  lemma RenderStart(head: seq<Record>, section: seq<Record>)
    ensures Render(head + section[..0]) == Render(head)
    ensures section[..|section|] == section
  {
    assert head + section[..0] == head;
  }

  lemma RenderTwo(a: Record, b: Record)
    ensures Render([a]) == Line(a) && Render([a, b]) == Line(a) + Line(b)
  {
    RenderAppend([], a);
    RenderAppend([a], b);
    assert [] + [a] == [a] && [a] + [b] == [a, b];
  }

  lemma RenderThree(a: Record, b: Record, c: Record)
    ensures Render([a, b, c]) == Line(a) + Line(b) + Line(c)
  {
    RenderTwo(a, b);
    RenderAppend([a, b], c);
    assert [a, b] + [c] == [a, b, c];
  }

  /** Two lists of plain records that print alike are the same list. */
  lemma {:induction false} RenderInjective(a: seq<Record>, b: seq<Record>)
    requires forall r :: r in a || r in b ==> PlainRecord(r)
    requires Render(a) == Render(b)
    ensures a == b
  {
    assert a != [] ==> |Line(a[0])| > 0 && Render(a) != "";
    assert b != [] ==> |Line(b[0])| > 0 && Render(b) != "";
    if a != [] && b != [] {
      assert PlainRecord(a[0]) && PlainRecord(b[0]);
      JoinChars(a[0], ':', ';');
      JoinChars(b[0], ':', ';');
      assert Join(a[0], ':') + [';'] + Render(a[1..]) == Render(a);
      assert Join(b[0], ':') + [';'] + Render(b[1..]) == Render(b);
      SplitUnique(Join(a[0], ':'), Render(a[1..]), Join(b[0], ':'), Render(b[1..]), ';');
      JoinInjective(a[0], b[0], ':');
      RenderInjective(a[1..], b[1..]);
      assert a == [a[0]] + a[1..] && b == [b[0]] + b[1..];
    }
  }
}
