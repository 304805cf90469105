/** The sequential ID allocator of `AmateurPlayerDatabase`: a new ID is the
    prefix letter followed by one more than the number in the
    lexicographically largest existing ID, formatted `%03d`. */
module AmateurDataEntry {
  import opened Base

  // ------------------------------------------------------------ string order

  /** Python's `a <= b` on strings: code-point lexicographic order. */
  predicate LexLe(a: string, b: string)
    decreases |a|
  {
    if a == [] then true
    else if b == [] then false
    else if a[0] != b[0] then a[0] < b[0]
    else LexLe(a[1..], b[1..])
  }

  lemma {:induction false} LexTotal(a: string, b: string)
    ensures LexLe(a, b) || LexLe(b, a)
    decreases |a|
  {
    if a != [] && b != [] && a[0] == b[0] {
      LexTotal(a[1..], b[1..]);
    }
  }

  lemma {:induction false} LexRefl(a: string)
    ensures LexLe(a, a)
    decreases |a|
  {
    if a != [] {
      LexRefl(a[1..]);
    }
  }

  lemma {:induction false} LexTrans(a: string, b: string, c: string)
    requires LexLe(a, b) && LexLe(b, c)
    ensures LexLe(a, c)
    decreases |a|
  {
    if a != [] && b != [] && c != [] && a[0] == b[0] && b[0] == c[0] {
      LexTrans(a[1..], b[1..], c[1..]);
    }
  }

  lemma {:induction false} LexAntisym(a: string, b: string)
    requires LexLe(a, b) && LexLe(b, a)
    ensures a == b
    decreases |a|
  {
    if a != [] && b != [] {
      LexAntisym(a[1..], b[1..]);
      assert a == [a[0]] + a[1..] && b == [b[0]] + b[1..];
    }
  }

  /** `max` of a non-empty list of strings. */
  function LexMax(ids: seq<string>): (m: string)
    requires |ids| > 0
    ensures m in ids
    ensures forall x :: x in ids ==> LexLe(x, m)
    decreases |ids|
  {
    var last := ids[|ids| - 1];
    LexRefl(last);
    if |ids| == 1 then
      assert ids == [last];
      last
    else
      var init := ids[..|ids| - 1];
      var m := LexMax(init);
      assert forall x :: x in ids ==> x in init || x == last;
      LexTotal(m, last);
      if LexLe(m, last) then
        assert forall x :: x in init ==> LexLe(x, last) by {
          forall x | x in init
            ensures LexLe(x, last)
          {
            LexTrans(x, m, last);
          }
        }
        last
      else m
  }

  // -------------------------------------------------------------- int(...)

  predicate IsDigit(c: char)
  {
    '0' <= c <= '9'
  }

  /** The ASCII characters `str.strip()` and `int()` treat as white space. */
  predicate IsSpace(c: char)
  {
    9 <= c as int <= 13 || 28 <= c as int <= 32
  }

  function TrimLeft(s: string): (t: string)
    ensures |t| <= |s| && (t == [] || !IsSpace(t[0]))
    ensures |s| > 0 && !IsSpace(s[0]) ==> t == s
    decreases |s|
  {
    if |s| > 0 && IsSpace(s[0]) then TrimLeft(s[1..]) else s
  }

  function TrimRight(s: string): (t: string)
    ensures |t| <= |s| && (t == [] || !IsSpace(t[|t| - 1]))
    ensures |s| > 0 && !IsSpace(s[|s| - 1]) ==> t == s
    decreases |s|
  {
    if |s| > 0 && IsSpace(s[|s| - 1]) then TrimRight(s[..|s| - 1]) else s
  }

  function DigitValue(c: char): (d: nat)
    requires IsDigit(c)
    ensures d < 10
  {
    c as int - '0' as int
  }

  /** The value of a string of decimal digits. */
  function Dec(ds: string): nat
    requires forall i :: 0 <= i < |ds| ==> IsDigit(ds[i])
    decreases |ds|
  {
    if ds == [] then 0 else 10 * Dec(ds[..|ds| - 1]) + DigitValue(ds[|ds| - 1])
  }

  /** Digits with single underscores between them, as `int()` accepts them. */
  predicate DigitGroups(s: string)
    decreases |s|
  {
    |s| > 0 && IsDigit(s[0]) &&
    (|s| == 1 || (IsDigit(s[1]) && DigitGroups(s[1..])) || (s[1] == '_' && DigitGroups(s[2..])))
  }

  predicate AllDigits(s: string)
  {
    forall i :: 0 <= i < |s| ==> IsDigit(s[i])
  }

  /** A string of digits alone is a single digit group. */
  lemma {:induction false} AllDigitsGroups(s: string)
    requires |s| > 0 && AllDigits(s)
    ensures DigitGroups(s)
    decreases |s|
  {
    if |s| > 1 {
      AllDigitsGroups(s[1..]);
    }
  }

  /** The digits of an integer literal with its underscores removed. */
  function DropUnderscores(s: string): (ds: string)
    ensures DigitGroups(s) ==> |ds| > 0 && AllDigits(ds)
    ensures AllDigits(s) ==> ds == s
    decreases |s|
  {
    if s == [] then []
    else
      var rest := DropUnderscores(s[1..]);
      assert |s| > 1 && s[1] == '_' ==> rest == DropUnderscores(s[2..]) by {
        if |s| > 1 && s[1] == '_' {
          assert s[1..][1..] == s[2..];
        }
      }
      if s[0] == '_' then rest else [s[0]] + rest
  }

  /** The unsigned part of an integer literal. */
  function Unsigned(body: string): (v: Option<nat>)
    ensures |body| > 0 && AllDigits(body) ==> v == Some(Dec(body))
  {
    assert |body| > 0 && AllDigits(body) ==> DigitGroups(body) by {
      if |body| > 0 && AllDigits(body) {
        AllDigitsGroups(body);
      }
    }
    if DigitGroups(body) then Some(Dec(DropUnderscores(body))) else None
  }

  /** Python's `int(s)` in base 10 on ASCII text: surrounding white space,
      one optional sign, then digit groups; anything else fails. */
  function ParseInt(s: string): (n: Option<int>)
  {
    Signed(TrimRight(TrimLeft(s)))
  }

  /** An integer literal with no surrounding white space. */
  function Signed(t: string): (n: Option<int>)
  {
    if |t| > 0 && (t[0] == '+' || t[0] == '-') then
      match Unsigned(t[1..])
      case None => None
      case Some(v) => Some(if t[0] == '-' then -(v as int) else v as int)
    else
      match Unsigned(t)
      case None => None
      case Some(v) => Some(v as int)
  }

  // -------------------------------------------------------------- %03d

  function DigitChar(d: nat): (c: char)
    requires d < 10
    ensures IsDigit(c) && DigitValue(c) == d
  {
    ('0' as int + d) as char
  }

  /** The decimal digits of n, without leading zeros. */
  function Digits(n: nat): (ds: string)
    ensures |ds| > 0 && forall i :: 0 <= i < |ds| ==> IsDigit(ds[i])
    ensures Dec(ds) == n
    ensures n < 10 ==> |ds| == 1
    ensures n < 100 ==> |ds| <= 2
    ensures n < 1000 ==> |ds| <= 3
    ensures n >= 1000 ==> |ds| >= 4
  {
    if n < 10 then [DigitChar(n)]
    else
      var ds := Digits(n / 10) + [DigitChar(n % 10)];
      assert ds[..|ds| - 1] == Digits(n / 10);
      ds
  }

  function Zeros(k: nat): (z: string)
    ensures |z| == k && forall i :: 0 <= i < k ==> z[i] == '0'
  {
    seq(k, i => '0')
  }

  /** Leading zeros do not change a digit string's value. */
  lemma {:induction false} DecLeadingZeros(k: nat, ds: string)
    requires forall i :: 0 <= i < |ds| ==> IsDigit(ds[i])
    ensures Dec(Zeros(k) + ds) == Dec(ds)
    decreases |ds|
  {
    var s := Zeros(k) + ds;
    if ds == [] {
      assert s == Zeros(k);
      ZerosValue(k);
    } else {
      assert s[..|s| - 1] == Zeros(k) + ds[..|ds| - 1];
      DecLeadingZeros(k, ds[..|ds| - 1]);
    }
  }

  lemma {:induction false} ZerosValue(k: nat)
    ensures Dec(Zeros(k)) == 0
    decreases k
  {
    if k > 0 {
      assert Zeros(k)[..k - 1] == Zeros(k - 1);
      ZerosValue(k - 1);
    }
  }

  /** `ds` left-padded with zeros to `width` characters; never truncated. */
  function Pad(ds: string, width: nat): (p: string)
    ensures |p| == if |ds| >= width then |ds| else width
  {
    if |ds| >= width then ds else Zeros(width - |ds|) + ds
  }

  /** `f'{n:03d}'`: at least three characters, the sign counted among them. */
  function Format03(n: int): (s: string)
    ensures 0 <= n < 1000 ==> |s| == 3
    ensures n >= 1000 ==> |s| >= 4
  {
    if n < 0 then "-" + Pad(Digits(-n), 2) else Pad(Digits(n), 3)
  }

  lemma PadDigits(n: nat, width: nat)
    ensures var p := Pad(Digits(n), width);
      |p| > 0 && (forall i :: 0 <= i < |p| ==> IsDigit(p[i])) && Dec(p) == n
  {
    var ds := Digits(n);
    if |ds| < width {
      DecLeadingZeros(width - |ds|, ds);
    }
  }

  /** Digits alone are a valid argument of `int()`. */
  lemma ParseDigitString(ds: string)
    requires |ds| > 0 && forall i :: 0 <= i < |ds| ==> IsDigit(ds[i])
    ensures ParseInt(ds) == Some(Dec(ds))
  {
    assert !IsSpace(ds[0]) && !IsSpace(ds[|ds| - 1]);
    assert TrimRight(TrimLeft(ds)) == ds;
  }

  /** Text with no white space at either end is left as it is. */
  lemma NoSpaceTrim(t: string)
    requires |t| > 0 && !IsSpace(t[0]) && !IsSpace(t[|t| - 1])
    ensures TrimRight(TrimLeft(t)) == t
  {
  }

  /** A minus sign before digits negates their value. */
  lemma SignedMinus(t: string, ds: string)
    requires |ds| > 0 && AllDigits(ds) && t == ['-'] + ds
    ensures Signed(t) == Some(-(Dec(ds) as int))
  {
    assert t[1..] == ds;
  }

  /** A minus sign followed by digits reads back as the negated value. */
  lemma ParseSigned(ds: string)
    requires |ds| > 0 && AllDigits(ds)
    ensures ParseInt(['-'] + ds) == Some(-(Dec(ds) as int))
  {
    var t := ['-'] + ds;
    assert t[|t| - 1] == ds[|ds| - 1];
    NoSpaceTrim(t);
    SignedMinus(t, ds);
  }

  /** `int` reads back what `%03d` wrote, for every integer. */
  lemma FormatParse(n: int)
    ensures ParseInt(Format03(n)) == Some(n)
  {
    if n < 0 {
      FormatParseNegative(n);
    } else {
      var ds := Pad(Digits(n), 3);
      PadDigits(n, 3);
      assert Format03(n) == ds;
      ParseDigitString(ds);
    }
  }

  /** The negative case: the sign, then the digits of -n padded to two. */
  lemma FormatParseNegative(n: int)
    requires n < 0
    ensures ParseInt(Format03(n)) == Some(n)
  {
    var ds := Pad(Digits(-n), 2);
    PadDigits(-n, 2);
    assert Format03(n) == ['-'] + ds;
    ParseSigned(ds);
  }

  // -------------------------------------------------------------- IDs

  datatype IdError =
    | NullId            // a missing ID: the column's max cannot be taken
    | NotANumber(text: string)  // `int(last_id[1:])` rejects the text

  /** The ID column of a table: None where a row has no ID. */
  type IdColumn = seq<Option<string>>

  predicate NoNulls(ids: IdColumn)
  {
    forall i :: 0 <= i < |ids| ==> ids[i].Some?
  }

  function Values(ids: IdColumn): (vs: seq<string>)
    requires NoNulls(ids)
    ensures |vs| == |ids| && forall i :: 0 <= i < |ids| ==> vs[i] == ids[i].value
  {
    seq(|ids|, i requires 0 <= i < |ids| => ids[i].value)
  }

  /** The ID `add_player` (prefix 'P') and `add_match_stats` (prefix 'M')
      derive from the table's ID column: the first ID for an empty table,
      otherwise the number in the largest ID plus one, `%03d`-formatted. */
  function NextId(prefix: char, ids: IdColumn): (r: Result<string, IdError>)
    ensures ids == [] ==> r == Ok([prefix] + "001")
    ensures ids != [] && !NoNulls(ids) ==> r == Err(NullId)
    ensures r.Ok? ==> |r.value| >= 4 && r.value[0] == prefix
  {
    if ids == [] then Ok([prefix] + "001")
    else if !NoNulls(ids) then Err(NullId)
    else
      var lastId := LexMax(Values(ids));
      var digits := if |lastId| > 0 then lastId[1..] else "";
      match ParseInt(digits)
      case None => Err(NotANumber(digits))
      case Some(num) =>
        var n := num + 1;
        Ok([prefix] + Format03(n))
  }

  /** The shape IDs have while the allocator works as intended: the prefix
      and exactly three digits. */
  predicate WellFormedId(prefix: char, id: string)
  {
    |id| == 4 && id[0] == prefix && forall i :: 1 <= i < |id| ==> IsDigit(id[i])
  }

  /** The number after the prefix letter of a well-formed ID (0 otherwise). */
  function Num(id: string): nat
  {
    if |id| >= 1 && forall i :: 1 <= i < |id| ==> IsDigit(id[i]) then Dec(id[1..]) else 0
  }

  /** Three digits' value, digit by digit. */
  lemma Dec3(ds: string)
    requires |ds| == 3 && forall i :: 0 <= i < 3 ==> IsDigit(ds[i])
    ensures Dec(ds) == 100 * DigitValue(ds[0]) + 10 * DigitValue(ds[1]) + DigitValue(ds[2])
  {
    assert Dec(ds[..1]) == DigitValue(ds[0]) by {
      assert ds[..1][..0] == [];
    }
    assert Dec(ds[..2]) == 10 * DigitValue(ds[0]) + DigitValue(ds[1]) by {
      assert ds[..2][..1] == ds[..1];
    }
    assert ds[..3] == ds;
  }

  /** Equal first characters defer the comparison to the rest. */
  lemma LexStep(a: string, b: string)
    requires |a| > 0 && |b| > 0 && a[0] == b[0]
    ensures LexLe(a, b) == LexLe(a[1..], b[1..])
  {
  }

  /** On three digits string order is numeric order. */
  lemma LexDigits3(x: string, y: string)
    requires |x| == 3 && |y| == 3 && forall i :: 0 <= i < 3 ==> IsDigit(x[i]) && IsDigit(y[i])
    ensures LexLe(x, y) <==> Dec(x) <= Dec(y)
  {
    Dec3(x);
    Dec3(y);
    if x[0] == y[0] {
      LexStep(x, y);
      if x[1] == y[1] {
        LexStep(x[1..], y[1..]);
        assert x[1..][1..] == x[2..] && y[1..][1..] == y[2..];
        if x[2] == y[2] {
          LexStep(x[2..], y[2..]);
        }
      }
    }
  }

  /** For well-formed IDs of one prefix string order is numeric order. */
  lemma LexIsNumeric(prefix: char, a: string, b: string)
    requires WellFormedId(prefix, a) && WellFormedId(prefix, b)
    ensures LexLe(a, b) <==> Num(a) <= Num(b)
  {
    LexStep(a, b);
    LexDigits3(a[1..], b[1..]);
  }

  /** Freshness: while every ID is well formed and below 999, the new ID is
      well formed, numerically above every existing one, and so not taken. */
  lemma NextIdFresh(prefix: char, ids: IdColumn)
    requires NoNulls(ids) && ids != []
    requires forall i {:trigger ids[i]} :: 0 <= i < |ids| ==> WellFormedId(prefix, ids[i].value) && Num(ids[i].value) < 999
    ensures NextId(prefix, ids).Ok?
    ensures var id := NextId(prefix, ids).value;
      WellFormedId(prefix, id) && forall i :: 0 <= i < |ids| ==> Num(ids[i].value) < Num(id)
    ensures Some(NextId(prefix, ids).value) !in ids
  {
    var vs := Values(ids);
    var last := LexMax(vs);
    var k :| 0 <= k < |vs| && vs[k] == last;
    ParseDigitString(last[1..]);
    var n := Num(last) + 1;
    PadDigits(n, 3);
    var id := [prefix] + Format03(n);
    assert NextId(prefix, ids) == Ok(id);
    assert id[1..] == Format03(n);
    forall i | 0 <= i < |ids|
      ensures Num(ids[i].value) < Num(id)
    {
      LexIsNumeric(prefix, vs[i], last);
    }
  }

  lemma Parse999()
    ensures ParseInt("999") == Some(999)
  {
    ParseDigitString("999");
    Dec3("999");
  }

  lemma Format1000()
    ensures Format03(1000) == "1000"
    ensures ['P'] + Format03(1000) == "P1000"
  {
    assert Digits(1) == "1";
    assert Digits(10) == "10";
    assert Digits(100) == "100";
    assert Digits(1000) == "1000";
  }

  /** "P1000" sorts before "P999": '1' < '9' at the first digit. */
  lemma ThousandSortsFirst()
    ensures !LexLe("P999", "P1000")
  {
    LexStep("P999", "P1000");
    assert "P999"[1..] == "999" && "P1000"[1..] == "1000";
  }

  /** `max` over the overflowing table still picks "P999". */
  lemma MaxAfterOverflow()
    ensures LexMax(["P999"]) == "P999"
    ensures LexMax(["P999", "P1000"]) == "P999"
  {
    ThousandSortsFirst();
    var m := LexMax(["P999", "P1000"]);
    assert m == "P999" || m == "P1000";
  }

  /** Whenever "P999" is the largest ID the next one is 999 + 1 formatted. */
  lemma AfterP999(ids: IdColumn)
    requires ids != [] && NoNulls(ids) && LexMax(Values(ids)) == "P999"
    ensures NextId('P', ids) == Ok(['P'] + Format03(1000))
  {
    Parse999();
    assert "P999"[1..] == "999";
  }

  /** With "P999" alone the next ID is 999 + 1 formatted. */
  lemma NextAfterP999()
    ensures NextId('P', [Some("P999")]) == Ok(['P'] + Format03(1000))
  {
    var one := [Some("P999")];
    assert Values(one) == ["P999"];
    MaxAfterOverflow();
    AfterP999(one);
  }

  /** With "P1000" added, "P999" is still the largest, so the same ID follows. */
  lemma NextAfterP1000()
    ensures NextId('P', [Some("P999"), Some("P1000")]) == Ok(['P'] + Format03(1000))
  {
    var two := [Some("P999"), Some("P1000")];
    assert Values(two) == ["P999", "P1000"];
    MaxAfterOverflow();
    AfterP999(two);
  }

  /** Past 999 the scheme breaks: after "P999" comes "P1000", but "P999"
      remains the largest ID in string order, so the next ID is "P1000"
      again, a duplicate. */
  lemma OverflowDuplicates()
    ensures NextId('P', [Some("P999")]) == Ok("P1000")
    ensures NextId('P', [Some("P999"), Some("P1000")]) == Ok("P1000")
  {
    NextAfterP999();
    NextAfterP1000();
    Format1000();
  }

  // -------------------------------------------------------------- the database

  /** The row dictionary `add_player` receives and fills in. */
  class PlayerRecord {
    var fields: map<string, string>

    constructor (fields: map<string, string>)
      ensures this.fields == fields
    {
      this.fields := fields;
    }
  }

  type Record = map<string, string>

  /** The ID column of a table of records. */
  function IdsOf(rows: seq<Record>, key: string): (ids: IdColumn)
    ensures |ids| == |rows|
    ensures forall i :: 0 <= i < |rows| ==> ids[i] == if key in rows[i] then Some(rows[i][key]) else None
  {
    seq(|rows|, i requires 0 <= i < |rows| => if key in rows[i] then Some(rows[i][key]) else None)
  }

  /** The two tables, held in memory; reading and writing the CSV files is
      not modelled. */
  class AmateurPlayerDatabase {
    var players: seq<Record>
    var matches: seq<Record>

    constructor (players: seq<Record>, matches: seq<Record>)
      ensures this.players == players && this.matches == matches
    {
      this.players := players;
      this.matches := matches;
    }

    /** `add_player(player_data)`: derive the next player ID, write it and
        the creation date into the record, and append the record as the last
        row. On failure nothing changes. */
    method AddPlayer(data: PlayerRecord, today: string) returns (r: Result<string, IdError>)
      modifies this, data
      ensures r == NextId('P', IdsOf(old(players), "player_id"))
      ensures r.Err? ==> players == old(players) && data.fields == old(data.fields)
      ensures r.Ok? ==> data.fields == old(data.fields)["player_id" := r.value]["created_date" := today]
      ensures r.Ok? ==> players == old(players) + [data.fields]
      ensures matches == old(matches)
    {
      var playerId := NextId('P', IdsOf(players, "player_id"));
      if playerId.Err? {
        return playerId;
      }
      data.fields := data.fields["player_id" := playerId.value];
      data.fields := data.fields["created_date" := today];
      players := players + [data.fields];
      r := playerId;
    }

    /** The ID `add_match_stats` derives for a new match row: `M001` for an
        empty table, and, while every match ID is `M` plus three digits below
        999, a well-formed ID above every existing one and so not yet taken. */
    method NextMatchId() returns (r: Result<string, IdError>)
      ensures r == NextId('M', IdsOf(matches, "match_id"))
      ensures matches == [] ==> r == Ok("M001")
      ensures var ids := IdsOf(matches, "match_id");
        matches != [] && NoNulls(ids) &&
        (forall i {:trigger ids[i]} :: 0 <= i < |ids| ==> WellFormedId('M', ids[i].value) && Num(ids[i].value) < 999) ==>
          r.Ok? && WellFormedId('M', r.value) &&
          forall i :: 0 <= i < |matches| ==> "match_id" in matches[i] && matches[i]["match_id"] != r.value
    {
      var ids := IdsOf(matches, "match_id");
      r := NextId('M', ids);
      assert ['M'] + "001" == "M001";
      if matches != [] && NoNulls(ids) &&
         forall i {:trigger ids[i]} :: 0 <= i < |ids| ==> WellFormedId('M', ids[i].value) && Num(ids[i].value) < 999
      {
        NextIdFresh('M', ids);
        forall i | 0 <= i < |matches|
          ensures "match_id" in matches[i] && matches[i]["match_id"] != r.value
        {
          assert ids[i] in ids;
        }
      }
    }
  }

  /** After a successful `add_player` the new last row carries the returned
      ID; with well-formed IDs below 999 that ID was not in the table before. */
  lemma AddedRowIsFresh(players: seq<Record>, id: string)
    requires NoNulls(IdsOf(players, "player_id")) && players != []
    requires var ids := IdsOf(players, "player_id");
      forall i {:trigger ids[i]} :: 0 <= i < |ids| ==> WellFormedId('P', ids[i].value) && Num(ids[i].value) < 999
    requires NextId('P', IdsOf(players, "player_id")) == Ok(id)
    ensures forall i :: 0 <= i < |players| ==> "player_id" in players[i] && players[i]["player_id"] != id
  {
    var ids := IdsOf(players, "player_id");
    NextIdFresh('P', ids);
    forall i | 0 <= i < |players|
      ensures "player_id" in players[i] && players[i]["player_id"] != id
    {
      assert ids[i] in ids;
    }
  }
}
