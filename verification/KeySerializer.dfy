/**
 * Row keys: printing with an escaped separator, and parsing them back
 * (applications/mydb/backend/KeySerializer.cc).
 */
module KeySerializer {
  import opened Options
  import opened Decimals

  const ESC: char := '/'

  // ---- Escaping and tokens ----

  /** Doubles every escape character. */
  function Escape(s: string): string {
    if s == [] then [] else (if s[0] == ESC then [ESC, ESC] else [s[0]]) + Escape(s[1..])
  }

  method EscapeString(input: string) returns (output: string)
    ensures output == Escape(input)
  {
    output := [];
    for i := 0 to |input|
      invariant output + Escape(input[i..]) == Escape(input)
    {
      assert input[i..][1..] == input[i + 1..];
      if input[i] == ESC {
        output := output + [ESC] + [ESC];
      } else {
        output := output + [input[i]];
      }
    }
  }

  /** One token from position `i`, and the position after its separator. */
  function Token(s: string, i: nat): (r: (string, nat))
    requires i <= |s|
    ensures i <= r.1 <= |s| && (i < |s| ==> i < r.1)
    ensures r.1 < |s| ==> s[r.1] != ESC
    decreases |s| - i
  {
    if i == |s| then ([], i)
    else if s[i] != ESC then
      var (rest, j) := Token(s, i + 1); ([s[i]] + rest, j)
    else if i + 1 < |s| && s[i + 1] == ESC then
      var (rest, j) := Token(s, i + 2); ([ESC] + rest, j)
    else
      ([], i + 1)
  }

  lemma PushAssoc(a: string, c: char, b: string)
    ensures a + ([c] + b) == (a + [c]) + b
  {
  }

  method ParseToken(s: string, startIndex: nat) returns (token: string, index: nat)
    requires startIndex <= |s|
    ensures (token, index) == Token(s, startIndex)
  {
    token, index := [], startIndex;
    while index < |s|
      invariant startIndex <= index <= |s|
      invariant Token(s, startIndex).0 == token + Token(s, index).0 && Token(s, startIndex).1 == Token(s, index).1
    {
      if s[index] != ESC {
        PushAssoc(token, s[index], Token(s, index + 1).0);
        token := token + [s[index]];
      } else if index + 1 < |s| && s[index + 1] == ESC {
        PushAssoc(token, ESC, Token(s, index + 2).0);
        token := token + [ESC];
        index := index + 1;
      } else {
        assert token + [] == token;
        index := index + 1;
        return;
      }
      index := index + 1;
    }
    assert token + [] == token;
  }

  function Tokens(s: string, i: nat): seq<string>
    requires i <= |s|
    decreases |s| - i
  {
    if i == |s| then [] else
      var (token, j) := Token(s, i); [token] + Tokens(s, j)
  }

  /** What a value must be to survive behind a separator. */
  predicate Good(s: string) {
    s != [] && s[0] != ESC
  }

  ghost predicate AllGood(ts: seq<string>) {
    forall i | 0 <= i < |ts| :: Good(ts[i])
  }

  function Join(ts: seq<string>): string {
    if ts == [] then []
    else if |ts| == 1 then Escape(ts[0])
    else Escape(ts[0]) + [ESC] + Join(ts[1..])
  }

  /** Escaped text is read back in full, up to a separator or the end. */
  lemma {:induction false} TokenOfEscape(before: string, t: string, after: string)
    requires after != [] ==> after[0] == ESC && (|after| > 1 ==> after[1] != ESC)
    ensures var s := before + Escape(t) + after;
            Token(s, |before|) == (t, |before| + |Escape(t)| + (if after == [] then 0 else 1))
    decreases |t|
  {
    var s := before + Escape(t) + after;
    if t != [] {
      var head := if t[0] == ESC then [ESC, ESC] else [t[0]];
      assert s == (before + head) + Escape(t[1..]) + after;
      TokenOfEscape(before + head, t[1..], after);
      assert s[|before|] == head[0];
      assert t == [t[0]] + t[1..];
      if t[0] == ESC {
        assert s[|before| + 1] == ESC;
      }
    } else if after != [] {
      assert s[|before|] == ESC;
      assert |after| > 1 ==> s[|before| + 1] == after[1];
    }
  }

  lemma EscapeStart(t: string)
    ensures Escape(t) == [] <==> t == []
    ensures t != [] ==> Escape(t)[0] == t[0]
  {
  }

  lemma JoinStart(ts: seq<string>)
    requires ts != [] && Good(ts[0])
    ensures Join(ts) != [] && Join(ts)[0] != ESC
  {
    EscapeStart(ts[0]);
  }

  lemma Regroup(a: string, b: string, c: string, d: string)
    ensures a + (b + c + d) == a + b + (c + d) == (a + b + c) + d
  {
  }

  lemma JoinFront(before: string, ts: seq<string>)
    requires |ts| > 1
    ensures before + Join(ts) == before + Escape(ts[0]) + ([ESC] + Join(ts[1..]))
    ensures before + Join(ts) == (before + Escape(ts[0]) + [ESC]) + Join(ts[1..])
  {
    Regroup(before, Escape(ts[0]), [ESC], Join(ts[1..]));
  }

  lemma TokensFrom(s: string, i: nat, j: nat, ts: seq<string>)
    requires i < j <= |s| && ts != [] && Token(s, i) == (ts[0], j) && Tokens(s, j) == ts[1..]
    ensures Tokens(s, i) == ts
  {
    assert ts == [ts[0]] + ts[1..];
  }

  /** Joined tokens are found again when each one behind a separator is good. */
  lemma {:induction false} TokensOfJoin(before: string, ts: seq<string>)
    requires ts != [] ==> ts[0] != [] && AllGood(ts[1..])
    ensures Tokens(before + Join(ts), |before|) == ts
    decreases |ts|
  {
    var s := before + Join(ts);
    if ts == [] {
      assert s == before;
    } else if |ts| == 1 {
      EscapeStart(ts[0]);
      TokenOfEscape(before, ts[0], []);
      assert s == before + Escape(ts[0]) + [];
      TokensFrom(s, |before|, |s|, ts);
    } else {
      EscapeStart(ts[0]);
      assert Good(ts[1..][0]);
      JoinStart(ts[1..]);
      JoinFront(before, ts);
      TokenOfEscape(before, ts[0], [ESC] + Join(ts[1..]));
      var front := before + Escape(ts[0]) + [ESC];
      TokensOfJoin(front, ts[1..]);
      TokensFrom(s, |before|, |front|, ts);
    }
  }

  /** No token behind a separator is empty or starts with the escape character, whatever the text. */
  lemma {:induction false} LaterTokensGood(s: string, i: nat)
    requires i <= |s| && (i < |s| ==> s[i] != ESC)
    ensures AllGood(Tokens(s, i))
    decreases |s| - i
  {
    if i < |s| {
      LaterTokensGood(s, Token(s, i).1);
    }
  }

  // ---- Numbers ----

  type uint32 = n: nat | n < 0x1_0000_0000

  function Zeros(k: nat): string {
    if k == 0 then [] else ['0'] + Zeros(k - 1)
  }

  /** At least four digits, padded with zeros. */
  function Pad(n: uint32): string {
    var d := Decimal(n);
    Zeros(if |d| < 4 then 4 - |d| else 0) + d
  }

  predicate IsDigit(c: char) {
    '0' <= c <= '9'
  }

  function Value(s: string): nat
    requires forall c <- s :: IsDigit(c)
  {
    if s == [] then 0 else
      var last := s[|s| - 1];
      assert last in s && IsDigit(last);
      10 * Value(s[..|s| - 1]) + (last as int - '0' as int)
  }

  datatype Error = BadNumber

  function ParseNumber(s: string): Result<uint32, Error> {
    if s != [] && (forall c <- s :: IsDigit(c)) && Value(s) < 0x1_0000_0000 then Ok(Value(s)) else Err(BadNumber)
  }

  lemma {:induction false} DecimalValue(n: nat)
    ensures Decimal(n) != [] && (forall c <- Decimal(n) :: IsDigit(c)) && Value(Decimal(n)) == n
  {
    if n >= 10 {
      DecimalValue(n / 10);
      assert Decimal(n)[..|Decimal(n)| - 1] == Decimal(n / 10);
    }
  }

  lemma {:induction false} LeadingZero(s: string)
    requires forall c <- s :: IsDigit(c)
    ensures Value(['0'] + s) == Value(s)
  {
    if s != [] {
      var t := ['0'] + s;
      assert t[..|t| - 1] == ['0'] + s[..|s| - 1];
      LeadingZero(s[..|s| - 1]);
    }
  }

  lemma {:induction false} ZerosValue(k: nat, s: string)
    requires forall c <- s :: IsDigit(c)
    ensures (forall c <- Zeros(k) + s :: IsDigit(c)) && Value(Zeros(k) + s) == Value(s)
  {
    if k == 0 {
      assert Zeros(0) + s == s;
    } else {
      ZerosValue(k - 1, s);
      LeadingZero(Zeros(k - 1) + s);
      assert Zeros(k) + s == ['0'] + (Zeros(k - 1) + s);
    }
  }

  lemma {:induction false} EscapeDigits(s: string)
    requires forall c <- s :: IsDigit(c)
    ensures Escape(s) == s
  {
    if s != [] {
      assert s[0] in s;
      EscapeDigits(s[1..]);
      assert s == [s[0]] + s[1..];
    }
  }

  /** A padded number parses back, is its own escape, and is safe behind a separator. */
  lemma PadRoundTrip(n: uint32)
    ensures ParseNumber(Pad(n)) == Ok(n) && Escape(Pad(n)) == Pad(n) && Good(Pad(n))
  {
    var d := Decimal(n);
    var k := if |d| < 4 then 4 - |d| else 0;
    DecimalValue(n);
    ZerosValue(k, d);
    EscapeDigits(Pad(n));
    assert Pad(n)[0] in Pad(n);
  }

  /** Texts that parse as a number are its decimal digits, perhaps behind zeros, and nothing else. */
  lemma NumberIff(s: string, n: uint32)
    ensures ParseNumber(s) == Ok(n) <==> exists k: nat :: s == Zeros(k) + Decimal(n)
  {
    if ParseNumber(s) == Ok(n) {
      var k := NumberText(s);
    }
    if k: nat :| s == Zeros(k) + Decimal(n) {
      DecimalValue(n);
      ZerosValue(k, Decimal(n));
    }
  }

  lemma DigitChar(c: char)
    requires IsDigit(c)
    ensures DIGITS[c as int - '0' as int] == c
  {
  }

  lemma AppendDigit(k: nat, v: nat, d: nat) returns (k': nat)
    requires d < 10
    ensures Zeros(k) + Decimal(v) + [DIGITS[d]] == Zeros(k') + Decimal(10 * v + d)
  {
    hide Zeros;
    if v == 0 {
      ZerosSnoc(k);
      assert Decimal(v) == ['0'];
      k' := k + 1;
    } else {
      assert (10 * v + d) / 10 == v && (10 * v + d) % 10 == d;
      k' := k;
    }
  }

  lemma ValueLast(s: string)
    requires s != [] && forall c <- s :: IsDigit(c)
    ensures IsDigit(s[|s| - 1]) && forall c <- s[..|s| - 1] :: IsDigit(c)
    ensures Value(s) == 10 * Value(s[..|s| - 1]) + (s[|s| - 1] as int - '0' as int)
  {
  }

  lemma {:induction false} NumberText(s: string) returns (k: nat)
    requires s != [] && forall c <- s :: IsDigit(c)
    ensures s == Zeros(k) + Decimal(Value(s))
    decreases |s|
  {
    ValueLast(s);
    var front, last := s[..|s| - 1], s[|s| - 1];
    var d := last as int - '0' as int;
    DigitChar(last);
    assert s == front + [DIGITS[d]];
    if front == [] {
      k := 0;
      assert Zeros(0) + Decimal(d) == [DIGITS[d]];
    } else {
      var j := NumberText(front);
      hide Zeros, Decimal, Value;
      k := AppendDigit(j, Value(front), d);
    }
  }

  lemma {:induction false} ZerosSnoc(k: nat)
    ensures Zeros(k + 1) == Zeros(k) + ['0']
  {
    if k > 0 {
      ZerosSnoc(k - 1);
    }
  }

  /** Four digits or, for a longer number, no padding. */
  lemma PadWidth(n: uint32)
    ensures |Pad(n)| == if n < 10000 then 4 else |Decimal(n)|
    ensures n >= 10000 ==> Pad(n)[0] != '0'
  {
    DecimalWidth(n, 4);
    ZerosWidth(if |Decimal(n)| < 4 then 4 - |Decimal(n)| else 0);
    if n >= 10000 {
      DecimalStart(n);
    }
  }

  lemma {:induction false} ZerosWidth(k: nat)
    ensures |Zeros(k)| == k && forall c <- Zeros(k) :: c == '0'
  {
    if k > 0 {
      ZerosWidth(k - 1);
    }
  }

  function Power10(k: nat): nat {
    if k == 0 then 1 else 10 * Power10(k - 1)
  }

  lemma {:induction false} DecimalWidth(n: nat, k: nat)
    requires k > 0
    ensures |Decimal(n)| <= k <==> n < Power10(k)
  {
    if k == 1 {
      assert Power10(1) == 10;
      if n >= 10 {
        DecimalValue(n / 10);
      }
    } else if n >= 10 {
      DecimalWidth(n / 10, k - 1);
    } else {
      PowerPositive(k - 1);
    }
  }

  lemma {:induction false} PowerPositive(k: nat)
    ensures Power10(k) >= 1
  {
    if k > 0 {
      PowerPositive(k - 1);
    }
  }

  lemma {:induction false} DecimalStart(n: nat)
    requires n > 0
    ensures Decimal(n) != [] && Decimal(n)[0] != '0'
  {
    if n >= 10 {
      DecimalStart(n / 10);
    }
  }

  // ---- Tables, keys and fragments ----

  datatype Index = Index(id: uint32, columns: seq<uint32>)

  datatype Table = Table(dbId: uint32, id: uint32, primary: Index, secondary: seq<Index>)

  datatype IndexValues = IndexValues(indexId: uint32, values: seq<string>)

  datatype Fragments = Fragments(dbId: Option<uint32>,
                                 tableId: Option<uint32>,
                                 primary: Option<IndexValues>,
                                 colId: Option<uint32>,
                                 secondary: Option<IndexValues>)

  /** The tokens a key is printed from: column ids and values, alternating. */
  function Parts(columns: seq<uint32>, values: seq<string>): seq<string>
    requires |values| <= |columns|
  {
    if values == [] then [] else [Pad(columns[0]), values[0]] + Parts(columns[1..], values[1..])
  }

  /** Column ids and values take turns, in the order of the columns. */
  lemma {:induction false} PartsAt(columns: seq<uint32>, values: seq<string>, i: nat)
    requires |values| <= |columns|
    ensures |Parts(columns, values)| == 2 * |values|
    ensures i < |values| ==>
              Parts(columns, values)[2 * i] == Pad(columns[i]) && Parts(columns, values)[2 * i + 1] == values[i]
  {
    if values != [] {
      PartsAt(columns[1..], values[1..], if i > 0 then i - 1 else 0);
    }
  }

  function Header(t: Table, indexId: uint32): seq<string> {
    [Pad(t.dbId), Pad(t.id), Pad(indexId)]
  }

  /** Prints the tokens behind `key`, each after a separator. */
  method AppendParts(key: string, columns: seq<uint32>, values: seq<string>) returns (out: string)
    requires |values| <= |columns|
    ensures out == Glue(key, Parts(columns, values))
  {
    out := key;
    for i := 0 to |values|
      invariant Glue(key, Parts(columns, values)) == Glue(out, Parts(columns[i..], values[i..]))
    {
      assert values[i..][1..] == values[i + 1..] && columns[i..][1..] == columns[i + 1..];
      GlueTwo(out, Pad(columns[i]), values[i], Parts(columns[i + 1..], values[i + 1..]));
      PadRoundTrip(columns[i]);
      var escaped := EscapeString(values[i]);
      out := out + [ESC] + Pad(columns[i]) + [ESC] + escaped;
    }
  }

  /** `key` followed by each token, escaped, after a separator. */
  function Glue(key: string, ts: seq<string>): string
    decreases |ts|
  {
    if ts == [] then key else Glue(key + [ESC] + Escape(ts[0]), ts[1..])
  }

  lemma GlueTwo(key: string, a: string, b: string, ts: seq<string>)
    ensures Glue(key, [a, b] + ts) == Glue(key + [ESC] + Escape(a) + [ESC] + Escape(b), ts)
  {
    assert ([a, b] + ts)[1..] == [b] + ts && ([b] + ts)[1..] == ts;
  }

  lemma {:induction false} GlueIsJoin(ts: seq<string>, us: seq<string>)
    requires ts != []
    ensures Glue(Join(ts), us) == Join(ts + us)
    decreases |us|
  {
    if us == [] {
      assert ts + us == ts;
    } else {
      JoinSnoc(ts, us[0]);
      GlueIsJoin(ts + [us[0]], us[1..]);
      assert ts + us == ts + [us[0]] + us[1..];
    }
  }

  lemma {:induction false} JoinSnoc(ts: seq<string>, u: string)
    requires ts != []
    ensures Join(ts + [u]) == Join(ts) + [ESC] + Escape(u)
    decreases |ts|
  {
    var e, f := Escape(ts[0]), Escape(u);
    if |ts| > 1 {
      JoinSnoc(ts[1..], u);
      assert (ts + [u])[1..] == ts[1..] + [u];
      var j := Join(ts[1..]);
      assert e + [ESC] + (j + [ESC] + f) == (e + [ESC] + j) + [ESC] + f;
    } else {
      assert (ts + [u])[1..] == [u];
    }
  }

  /** The index with an id that the printer and the parser take: the first one. */
  function Find(indexes: seq<Index>, id: uint32): (r: Option<Index>)
    ensures r.Some? ==> r.value in indexes && r.value.id == id
    ensures r.None? ==> forall x <- indexes :: x.id != id
  {
    if indexes == [] then None else if indexes[0].id == id then Some(indexes[0]) else Find(indexes[1..], id)
  }

  lemma {:induction false} FindIsFirst(indexes: seq<Index>, id: uint32, i: nat)
    requires i < |indexes| && indexes[i].id == id && forall j | 0 <= j < i :: indexes[j].id != id
    ensures Find(indexes, id) == Some(indexes[i])
    decreases |indexes|
  {
    if i > 0 {
      FindIsFirst(indexes[1..], id, i - 1);
    }
  }

  /** The three kinds of key, by what they are made from. */
  datatype Key =
    | Primary(values: seq<string>)
    | Column(values: seq<string>, colId: uint32)
    | Secondary(indexId: uint32, indexValues: seq<string>, values: seq<string>)

  /** What the printing functions assert of their arguments; a secondary key may leave out primary values at the end. */
  predicate Fits(t: Table, k: Key) {
    && |k.values| <= |t.primary.columns| && (!k.Secondary? ==> |k.values| == |t.primary.columns|)
    && (k.Secondary? ==>
          var index := Find(t.secondary, k.indexId);
          index.Some? && |k.indexValues| == |index.value.columns|)
  }

  /** The tokens of a key. */
  function KeyTokens(t: Table, k: Key): (r: seq<string>)
    requires Fits(t, k)
  {
    match k
    case Primary(values) => Header(t, t.primary.id) + Parts(t.primary.columns, values)
    case Column(values, colId) => Header(t, t.primary.id) + Parts(t.primary.columns, values) + [Pad(colId)]
    case Secondary(indexId, indexValues, values) =>
      Header(t, indexId) + Parts(Find(t.secondary, indexId).value.columns, indexValues)
      + Parts(t.primary.columns, values)
  }

  /** The text of a key. */
  function Print(t: Table, k: Key): string
    requires Fits(t, k)
  {
    Join(KeyTokens(t, k))
  }

  method PrintHeader(t: Table, indexId: uint32) returns (key: string)
    ensures key == Join(Header(t, indexId))
  {
    PadRoundTrip(t.dbId);
    PadRoundTrip(t.id);
    PadRoundTrip(indexId);
    JoinSnoc([Pad(t.dbId)], Pad(t.id));
    JoinSnoc([Pad(t.dbId), Pad(t.id)], Pad(indexId));
    key := Pad(t.dbId) + [ESC] + Pad(t.id) + [ESC] + Pad(indexId);
  }

  method PrimaryKey(t: Table, values: seq<string>) returns (key: string)
    requires Fits(t, Primary(values))
    ensures key == Print(t, Primary(values))
  {
    key := PrintHeader(t, t.primary.id);
    key := AppendParts(key, t.primary.columns, values);
    GlueIsJoin(Header(t, t.primary.id), Parts(t.primary.columns, values));
  }

  method ColumnKey(primaryKey: string, colId: uint32) returns (key: string)
    ensures forall t, values {:trigger Print(t, Primary(values))} ::
              Fits(t, Primary(values)) && primaryKey == Print(t, Primary(values)) ==>
                key == Print(t, Column(values, colId))
  {
    PadRoundTrip(colId);
    forall t: Table, values | Fits(t, Primary(values)) && primaryKey == Print(t, Primary(values))
      ensures primaryKey + [ESC] + Pad(colId) == Print(t, Column(values, colId))
    {
      JoinSnoc(KeyTokens(t, Primary(values)), Pad(colId));
    }
    key := primaryKey + [ESC] + Pad(colId);
  }

  method SecondaryIndexKey(t: Table, indexId: uint32, values: seq<string>, primaryValues: seq<string>)
    returns (key: string)
    requires Fits(t, Secondary(indexId, values, primaryValues))
    ensures key == Print(t, Secondary(indexId, values, primaryValues))
  {
    var i := 0;
    while i < |t.secondary| && t.secondary[i].id != indexId
      invariant i <= |t.secondary|
      invariant Find(t.secondary, indexId) == Find(t.secondary[i..], indexId)
    {
      assert t.secondary[i..][1..] == t.secondary[i + 1..];
      i := i + 1;
    }
    var columns := t.secondary[i].columns;
    key := PrintHeader(t, indexId);
    key := AppendParts(key, columns, values);
    GlueIsJoin(Header(t, indexId), Parts(columns, values));
    key := AppendParts(key, t.primary.columns, primaryValues);
    GlueIsJoin(Header(t, indexId) + Parts(columns, values), Parts(t.primary.columns, primaryValues));
  }

  // ---- Parsing ----

  datatype TokenType = DbId | TableId | IndexId | PrimaryParts | ColumnId | SecondaryParts

  /** `onColumn`: the next part is a column id; `width`: columns of the secondary index found. */
  datatype ParseState = ParseState(current: TokenType, onColumn: bool, found: Fragments, width: nat)

  const START := ParseState(DbId, true, Fragments(None, None, None, None, None), 0)

  /** An index that is not found counts as one without columns. */
  function Width(indexes: seq<Index>, id: uint32): nat {
    var index := Find(indexes, id);
    if index.Some? then |index.value.columns| else 0
  }

  function WithValue(v: IndexValues, onColumn: bool, token: string): IndexValues {
    if onColumn then v else v.(values := v.values + [token])
  }

  /** What one token does. */
  function Step(t: Table, st: ParseState, token: string): Result<ParseState, Error>
    requires st.current.PrimaryParts? ==> st.found.primary.Some?
    requires st.current.SecondaryParts? ==> st.found.secondary.Some?
  {
    var f := st.found;
    match st.current
    case DbId =>
      var n := ParseNumber(token);
      if n.Err? then Err(n.error) else Ok(st.(current := TableId, found := f.(dbId := Some(n.value))))
    case TableId =>
      var n := ParseNumber(token);
      if n.Err? then Err(n.error) else Ok(st.(current := IndexId, found := f.(tableId := Some(n.value))))
    case IndexId =>
      var n := ParseNumber(token);
      if n.Err? then Err(n.error)
      else if n.value == 0 then
        Ok(st.(current := PrimaryParts, found := f.(primary := Some(IndexValues(0, [])))))
      else
        Ok(st.(current := SecondaryParts, found := f.(secondary := Some(IndexValues(n.value, []))),
               width := Width(t.secondary, n.value)))
    case PrimaryParts =>
      var v := WithValue(f.primary.value, st.onColumn, token);
      Ok(st.(current := if |v.values| == |t.primary.columns| then ColumnId else PrimaryParts,
             onColumn := !st.onColumn, found := f.(primary := Some(v))))
    case ColumnId =>
      var n := ParseNumber(token);
      if n.Err? then Err(n.error) else Ok(st.(found := f.(colId := Some(n.value))))
    case SecondaryParts =>
      var v := WithValue(f.secondary.value, st.onColumn, token);
      var full := |v.values| == st.width;
      Ok(st.(current := if full then PrimaryParts else SecondaryParts, onColumn := !st.onColumn,
             found := f.(secondary := Some(v), primary := if full then Some(IndexValues(0, [])) else f.primary)))
  }

  ghost predicate StateOk(st: ParseState) {
    && (st.current.PrimaryParts? ==> st.found.primary.Some?)
    && (st.current.SecondaryParts? ==> st.found.secondary.Some?)
  }

  function Steps(t: Table, st: ParseState, ts: seq<string>): Result<Fragments, Error>
    requires StateOk(st)
    decreases |ts|
  {
    if ts == [] then Ok(st.found) else
      var next := Step(t, st, ts[0]);
      if next.Err? then Err(next.error) else Steps(t, next.value, ts[1..])
  }

  function Parsed(t: Table, key: string): Result<Fragments, Error> {
    Steps(t, START, Tokens(key, 0))
  }

  method ParseKey(t: Table, key: string) returns (result: Result<Fragments, Error>)
    ensures result == Parsed(t, key)
  {
    var st := START;
    var i := 0;
    while i < |key|
      invariant i <= |key| && StateOk(st)
      invariant Parsed(t, key) == Steps(t, st, Tokens(key, i))
    {
      var token, next := ParseToken(key, i);
      assert Tokens(key, i) == [token] + Tokens(key, next);
      var after := Step(t, st, token);
      if after.Err? {
        return Err(after.error);
      }
      st, i := after.value, next;
    }
    return Ok(st.found);
  }

  // ---- Round trip ----

  function Expected(t: Table, k: Key): Fragments {
    var primary := Some(IndexValues(t.primary.id, k.values));
    match k
    case Primary(_) => Fragments(Some(t.dbId), Some(t.id), primary, None, None)
    case Column(_, colId) => Fragments(Some(t.dbId), Some(t.id), primary, Some(colId), None)
    case Secondary(indexId, indexValues, _) =>
      Fragments(Some(t.dbId), Some(t.id), primary, None, Some(IndexValues(indexId, indexValues)))
  }

  /** The printed values of a key. */
  function ValuesOf(k: Key): seq<string> {
    (if k.Secondary? then k.indexValues else []) + k.values
  }

  /** Where in the table the parser's fixed ideas about ids and widths do no harm. */
  predicate Placed(t: Table, k: Key)
    requires Fits(t, k)
  {
    && t.primary.id == 0
    && (k.Column? ==> k.values != [])
    && (k.Secondary? ==> k.indexId != 0 && (k.indexValues != [] || k.values != []))
  }

  lemma {:induction false} PartsGood(columns: seq<uint32>, values: seq<string>)
    requires |values| <= |columns| && AllGood(values)
    ensures AllGood(Parts(columns, values))
  {
    if values != [] {
      PadRoundTrip(columns[0]);
      PartsGood(columns[1..], values[1..]);
    }
  }

  lemma GoodConcat(a: seq<string>, b: seq<string>)
    ensures AllGood(a + b) <==> AllGood(a) && AllGood(b)
  {
    if AllGood(a + b) {
      assert forall i | 0 <= i < |a| :: (a + b)[i] == a[i];
      assert forall i | 0 <= i < |b| :: (a + b)[|a| + i] == b[i];
    }
  }

  lemma HeaderGood(t: Table, id: uint32)
    ensures AllGood(Header(t, id))
  {
    PadRoundTrip(t.dbId);
    PadRoundTrip(t.id);
    PadRoundTrip(id);
  }

  lemma KeyTokensGood(t: Table, k: Key)
    requires Fits(t, k) && AllGood(ValuesOf(k))
    ensures AllGood(KeyTokens(t, k))
  {
    GoodConcat(if k.Secondary? then k.indexValues else [], k.values);
    var primary := Parts(t.primary.columns, k.values);
    PartsGood(t.primary.columns, k.values);
    if k.Secondary? {
      var columns := Find(t.secondary, k.indexId).value.columns;
      HeaderGood(t, k.indexId);
      PartsGood(columns, k.indexValues);
      GoodConcat(Header(t, k.indexId), Parts(columns, k.indexValues));
      GoodConcat(Header(t, k.indexId) + Parts(columns, k.indexValues), primary);
    } else {
      HeaderGood(t, t.primary.id);
      GoodConcat(Header(t, t.primary.id), primary);
      if k.Column? {
        PadRoundTrip(k.colId);
        GoodConcat(Header(t, t.primary.id) + primary, [Pad(k.colId)]);
      }
    }
  }

  /** With good values the printed text falls apart into the tokens it was made from. */
  lemma KeyTokensFound(t: Table, k: Key)
    requires Fits(t, k) && AllGood(ValuesOf(k))
    ensures Tokens(Print(t, k), 0) == KeyTokens(t, k)
  {
    var ts := KeyTokens(t, k);
    KeyTokensGood(t, k);
    TokensOfJoin([], ts);
    assert [] + Join(ts) == Join(ts);
  }

  lemma StepOnce(t: Table, st: ParseState, token: string, rest: seq<string>)
    requires StateOk(st) && Step(t, st, token).Ok?
    ensures Steps(t, st, [token] + rest) == Steps(t, Step(t, st, token).value, rest)
  {
    assert ([token] + rest)[1..] == rest;
  }

  /** The state behind a printed header. */
  function AfterHeader(t: Table, id: uint32): ParseState {
    var f := Fragments(Some(t.dbId), Some(t.id), None, None, None);
    if id == 0 then ParseState(PrimaryParts, true, f.(primary := Some(IndexValues(0, []))), 0)
    else ParseState(SecondaryParts, true, f.(secondary := Some(IndexValues(id, []))), Width(t.secondary, id))
  }

  lemma HeaderSteps(t: Table, id: uint32, rest: seq<string>)
    ensures Steps(t, START, Header(t, id) + rest) == Steps(t, AfterHeader(t, id), rest)
  {
    hide Pad, Steps, Find;
    var a, b, c := Pad(t.dbId), Pad(t.id), Pad(id);
    PadRoundTrip(t.dbId);
    PadRoundTrip(t.id);
    PadRoundTrip(id);
    assert Header(t, id) + rest == [a] + ([b] + ([c] + rest));
    StepOnce(t, START, a, [b] + ([c] + rest));
    var s1 := Step(t, START, a).value;
    StepOnce(t, s1, b, [c] + rest);
    var s2 := Step(t, s1, b).value;
    StepOnce(t, s2, c, rest);
  }

  /** A column id and a value, in either kind of part. */
  lemma PairStep(t: Table, st: ParseState, column: string, value: string, rest: seq<string>)
    requires StateOk(st) && st.onColumn
    requires st.current.PrimaryParts? ==> |st.found.primary.value.values| < |t.primary.columns|
    requires st.current.SecondaryParts? ==> |st.found.secondary.value.values| < st.width
    requires st.current.PrimaryParts? || st.current.SecondaryParts?
    ensures var f := st.found;
            Steps(t, st, [column, value] + rest) ==
            Steps(t, if st.current.PrimaryParts? then
                       var v := IndexValues(f.primary.value.indexId, f.primary.value.values + [value]);
                       st.(found := f.(primary := Some(v)),
                           current := if |v.values| == |t.primary.columns| then ColumnId else PrimaryParts)
                     else
                       var v := IndexValues(f.secondary.value.indexId, f.secondary.value.values + [value]);
                       if |v.values| == st.width then
                         st.(found := f.(secondary := Some(v), primary := Some(IndexValues(0, []))),
                             current := PrimaryParts)
                       else st.(found := f.(secondary := Some(v))), rest)
  {
    assert [column, value] + rest == [column] + ([value] + rest);
    StepOnce(t, st, column, [value] + rest);
    var mid := Step(t, st, column).value;
    assert mid == st.(onColumn := false);
    StepOnce(t, mid, value, rest);
  }

  lemma PartsFront(columns: seq<uint32>, values: seq<string>, rest: seq<string>)
    requires 0 < |values| <= |columns|
    ensures Parts(columns, values) + rest == [Pad(columns[0]), values[0]] + (Parts(columns[1..], values[1..]) + rest)
  {
    TokensAssoc([Pad(columns[0]), values[0]], Parts(columns[1..], values[1..]), rest);
  }

  lemma TokensAssoc(a: seq<string>, b: seq<string>, c: seq<string>)
    ensures a + b + c == a + (b + c)
  {
  }

  lemma {:induction false} PrimarySteps(t: Table, st: ParseState, columns: seq<uint32>, values: seq<string>,
                                        rest: seq<string>)
    requires st.current.PrimaryParts? && st.onColumn && st.found.primary.Some?
    requires 0 < |values| <= |columns| && |st.found.primary.value.values| + |values| <= |t.primary.columns|
    ensures var v := st.found.primary.value.(values := st.found.primary.value.values + values);
            var full := |v.values| == |t.primary.columns|;
            Steps(t, st, Parts(columns, values) + rest) ==
            Steps(t, st.(current := if full then ColumnId else PrimaryParts, found := st.found.(primary := Some(v))),
                  rest)
    decreases |values|
  {
    var v := st.found.primary.value;
    var tail := Parts(columns[1..], values[1..]) + rest;
    PartsFront(columns, values, rest);
    PairStep(t, st, Pad(columns[0]), values[0], tail);
    assert v.values + values == (v.values + [values[0]]) + values[1..];
    if |values| > 1 {
      var next := st.(found := st.found.(primary := Some(v.(values := v.values + [values[0]]))));
      PrimarySteps(t, next, columns[1..], values[1..], rest);
    } else {
      assert tail == rest && values == [values[0]];
    }
  }

  lemma {:induction false} SecondarySteps(t: Table, st: ParseState, columns: seq<uint32>, values: seq<string>,
                                          rest: seq<string>)
    requires st.current.SecondaryParts? && st.onColumn && st.found.secondary.Some?
    requires 0 < |values| <= |columns| && |st.found.secondary.value.values| + |values| == st.width
    ensures var v := st.found.secondary.value;
            Steps(t, st, Parts(columns, values) + rest) ==
            Steps(t, st.(current := PrimaryParts,
                         found := st.found.(secondary := Some(v.(values := v.values + values)),
                                            primary := Some(IndexValues(0, [])))), rest)
    decreases |values|
  {
    var v := st.found.secondary.value;
    var tail := Parts(columns[1..], values[1..]) + rest;
    PartsFront(columns, values, rest);
    PairStep(t, st, Pad(columns[0]), values[0], tail);
    assert v.values + values == (v.values + [values[0]]) + values[1..];
    if |values| > 1 {
      SecondarySteps(t, st.(found := st.found.(secondary := Some(v.(values := v.values + [values[0]])))),
                     columns[1..], values[1..], rest);
    } else {
      assert tail == rest && values == [values[0]];
    }
  }

  /** Parsing the tokens a key was made from gives back what it was made from. */
  lemma TokensRoundTrip(t: Table, k: Key)
    requires Fits(t, k) && Placed(t, k)
    ensures Steps(t, START, KeyTokens(t, k)) == Ok(Expected(t, k))
  {
    var columns := t.primary.columns;
    var primary := Parts(columns, k.values);
    match k
    case Primary(values) =>
      HeaderSteps(t, 0, primary);
      if values != [] {
        PrimarySteps(t, AfterHeader(t, 0), columns, values, []);
        assert primary + [] == primary;
        assert [] + values == values;
      }
    case Column(values, colId) =>
      var last := [Pad(colId)];
      assert KeyTokens(t, k) == Header(t, 0) + (primary + last);
      HeaderSteps(t, 0, primary + last);
      PrimarySteps(t, AfterHeader(t, 0), columns, values, last);
      assert [] + values == values;
      PadRoundTrip(colId);
      var st := AfterHeader(t, 0).(current := ColumnId, found := Expected(t, Primary(values)));
      StepOnce(t, st, Pad(colId), []);
      assert last + [] == last;
    case Secondary(id, indexValues, values) =>
      var indexColumns := Find(t.secondary, id).value.columns;
      var parts := Parts(indexColumns, indexValues);
      assert KeyTokens(t, k) == Header(t, id) + (parts + primary);
      HeaderSteps(t, id, parts + primary);
      if indexValues != [] {
        SecondarySteps(t, AfterHeader(t, id), indexColumns, indexValues, primary);
        assert [] + indexValues == indexValues;
        var f := Expected(t, k).(primary := Some(IndexValues(0, [])));
        PrimaryEnd(t, AfterHeader(t, id).(current := PrimaryParts, found := f), values);
      } else {
        assert parts + primary == primary;
        EmptyIndexSteps(t, id, values);
      }
  }

  /** The primary values at the end of a secondary key. */
  lemma PrimaryEnd(t: Table, st: ParseState, values: seq<string>)
    requires st.current.PrimaryParts? && st.onColumn && st.found.primary == Some(IndexValues(0, []))
    requires |values| <= |t.primary.columns|
    ensures Steps(t, st, Parts(t.primary.columns, values)) == Ok(st.found.(primary := Some(IndexValues(0, values))))
  {
    if values != [] {
      var primary := Parts(t.primary.columns, values);
      PrimarySteps(t, st, t.primary.columns, values, []);
      assert primary + [] == primary;
      assert [] + values == values;
    }
  }

  /** An index without columns swallows the first primary column id, and no more. */
  lemma EmptyIndexSteps(t: Table, id: uint32, values: seq<string>)
    requires Width(t.secondary, id) == 0 && id != 0 && 0 < |values| <= |t.primary.columns|
    ensures Steps(t, AfterHeader(t, id), Parts(t.primary.columns, values)) ==
            Ok(AfterHeader(t, id).found.(primary := Some(IndexValues(0, values))))
  {
    var columns := t.primary.columns;
    var tail := Parts(columns[1..], values[1..]);
    var st := AfterHeader(t, id);
    assert Parts(columns, values) == [Pad(columns[0])] + ([values[0]] + tail);
    StepOnce(t, st, Pad(columns[0]), [values[0]] + tail);
    var mid := Step(t, st, Pad(columns[0])).value;
    StepOnce(t, mid, values[0], tail);
    var next := Step(t, mid, values[0]).value;
    assert [] + [values[0]] == [values[0]];
    assert next.found == st.found.(primary := Some(IndexValues(0, [values[0]])));
    if |values| > 1 {
      PrimarySteps(t, next, columns[1..], values[1..], []);
      assert tail + [] == tail;
      assert [values[0]] + values[1..] == values;
    } else {
      assert values == [values[0]];
    }
  }

  /** So does an index that the table does not have: it counts as one without columns. */
  lemma UnknownIndexSteps(t: Table, id: uint32, values: seq<string>)
    requires (forall index <- t.secondary :: index.id != id) && id != 0 && 0 < |values| <= |t.primary.columns|
    ensures Steps(t, AfterHeader(t, id), Parts(t.primary.columns, values)) ==
            Ok(AfterHeader(t, id).found.(primary := Some(IndexValues(0, values))))
  {
    EmptyIndexSteps(t, id, values);
  }

  ghost predicate FoundGood(f: Fragments) {
    && (f.primary.Some? ==> AllGood(f.primary.value.values))
    && (f.secondary.Some? ==> AllGood(f.secondary.value.values))
  }

  lemma {:induction false} StepsGood(t: Table, st: ParseState, ts: seq<string>)
    requires StateOk(st) && FoundGood(st.found) && AllGood(ts)
    ensures Steps(t, st, ts).Ok? ==> FoundGood(Steps(t, st, ts).value)
    decreases |ts|
  {
    if ts != [] {
      var next := Step(t, st, ts[0]);
      if next.Ok? {
        StepsGood(t, next.value, ts[1..]);
      }
    }
  }

  /** Whatever the key, the parser never reports a value that is empty or starts with the escape character. */
  lemma ParsedIsGood(t: Table, key: string)
    ensures Parsed(t, key).Ok? ==> FoundGood(Parsed(t, key).value)
  {
    if key != [] {
      var (token, next) := Token(key, 0);
      LaterTokensGood(key, next);
      var after := Step(t, START, token);
      assert Tokens(key, 0)[1..] == Tokens(key, next);
      if after.Ok? {
        StepsGood(t, after.value, Tokens(key, next));
      }
    }
  }

  /** A key that parses starts with numbers, and the first two are the ids it reports. */
  lemma ParsedHeader(t: Table, key: string)
    requires Parsed(t, key).Ok?
    ensures var ts := Tokens(key, 0);
            && (forall i | 0 <= i < 3 && i < |ts| :: ParseNumber(ts[i]).Ok?)
            && Parsed(t, key).value.dbId == (if |ts| >= 1 then Some(ParseNumber(ts[0]).value) else None)
            && Parsed(t, key).value.tableId == (if |ts| >= 2 then Some(ParseNumber(ts[1]).value) else None)
  {
    var ts := Tokens(key, 0);
    if |ts| >= 1 {
      var s1 := Step(t, START, ts[0]).value;
      var ts1 := ts[1..];
      assert Steps(t, START, ts) == Steps(t, s1, ts1);
      if |ts| >= 2 {
        assert ts1[0] == ts[1];
        var s2 := Step(t, s1, ts1[0]).value;
        var ts2 := ts1[1..];
        assert Steps(t, s1, ts1) == Steps(t, s2, ts2);
        if |ts| >= 3 {
          assert ts2[0] == ts[2];
          StepsKeepHeader(t, Step(t, s2, ts2[0]).value, ts2[1..]);
        }
      }
    }
  }

  lemma {:induction false} StepsKeepHeader(t: Table, st: ParseState, ts: seq<string>)
    requires StateOk(st) && !st.current.DbId? && !st.current.TableId? && !st.current.IndexId?
    ensures Steps(t, st, ts).Ok? ==>
              Steps(t, st, ts).value.dbId == st.found.dbId && Steps(t, st, ts).value.tableId == st.found.tableId
    decreases |ts|
  {
    if ts != [] {
      var next := Step(t, st, ts[0]);
      if next.Ok? {
        StepsKeepHeader(t, next.value, ts[1..]);
      }
    }
  }

  /** Behind the primary parts every token must be a number, and the last one is the column id. */
  lemma {:induction false} LastColumnCounts(t: Table, st: ParseState, ts: seq<string>)
    requires st.current.ColumnId? && ts != []
    ensures Steps(t, st, ts).Ok? <==> forall i | 0 <= i < |ts| :: ParseNumber(ts[i]).Ok?
    ensures Steps(t, st, ts).Ok? ==> Steps(t, st, ts).value == st.found.(colId := Some(ParseNumber(ts[|ts| - 1]).value))
    decreases |ts|
  {
    var next := Step(t, st, ts[0]);
    if next.Ok? && |ts| > 1 {
      LastColumnCounts(t, next.value, ts[1..]);
      assert forall i | 1 <= i < |ts| :: ts[i] == ts[1..][i - 1];
    }
  }

  /** Once an index of one kind was named, the other cannot come out as expected. */
  lemma {:induction false} StepsKind(t: Table, st: ParseState, ts: seq<string>)
    requires StateOk(st)
    ensures var r := Steps(t, st, ts);
            r.Ok? ==>
              && (st.found.secondary.Some? ==> r.value.secondary.Some?)
              && (st.found.secondary.None? && (st.current.PrimaryParts? || st.current.ColumnId?) ==>
                    r.value.secondary.None?)
    decreases |ts|
  {
    if ts != [] {
      var next := Step(t, st, ts[0]);
      if next.Ok? {
        StepsKind(t, next.value, ts[1..]);
      }
    }
  }

  /** A key is recovered in full exactly when its values are good and the table is laid out as the parser expects. */
  lemma RoundTrip(t: Table, k: Key)
    requires Fits(t, k)
    ensures Parsed(t, Print(t, k)) == Ok(Expected(t, k)) <==> AllGood(ValuesOf(k)) && Placed(t, k)
  {
    if AllGood(ValuesOf(k)) {
      KeyTokensFound(t, k);
      if Placed(t, k) {
        TokensRoundTrip(t, k);
      } else {
        MisplacedTokens(t, k);
      }
    } else {
      ParsedIsGood(t, Print(t, k));
      GoodConcat(if k.Secondary? then k.indexValues else [], k.values);
    }
  }

  lemma MisplacedTokens(t: Table, k: Key)
    requires Fits(t, k) && !Placed(t, k)
    ensures Steps(t, START, KeyTokens(t, k)) != Ok(Expected(t, k))
  {
    var primary := Parts(t.primary.columns, k.values);
    if k.Secondary? {
      var parts := Parts(Find(t.secondary, k.indexId).value.columns, k.indexValues);
      assert KeyTokens(t, k) == Header(t, k.indexId) + (parts + primary);
      HeaderSteps(t, k.indexId, parts + primary);
      StepsKind(t, AfterHeader(t, k.indexId), parts + primary);
      if k.indexId != 0 {
        StepsPrimaryId(t, AfterHeader(t, k.indexId), parts + primary);
      }
    } else {
      var rest := primary + if k.Column? then [Pad(k.colId)] else [];
      assert KeyTokens(t, k) == Header(t, t.primary.id) + rest;
      HeaderSteps(t, t.primary.id, rest);
      StepsKind(t, AfterHeader(t, t.primary.id), rest);
      if t.primary.id == 0 {
        assert rest == [Pad(k.colId)] + [];
        StepOnce(t, AfterHeader(t, 0), Pad(k.colId), []);
      }
    }
  }

  /** The parser always reports the primary index under id 0. */
  lemma {:induction false} StepsPrimaryId(t: Table, st: ParseState, ts: seq<string>)
    requires StateOk(st) && (st.found.primary.Some? ==> st.found.primary.value.indexId == 0)
    ensures var r := Steps(t, st, ts);
            r.Ok? && r.value.primary.Some? ==> r.value.primary.value.indexId == 0
    decreases |ts|
  {
    if ts != [] {
      var next := Step(t, st, ts[0]);
      if next.Ok? {
        StepsPrimaryId(t, next.value, ts[1..]);
      }
    }
  }

  /** Keys of one table are injective, across the three kinds. */
  lemma KeysAreInjective(t: Table, a: Key, b: Key)
    requires Fits(t, a) && Fits(t, b) && Placed(t, a) && Placed(t, b)
    requires AllGood(ValuesOf(a)) && AllGood(ValuesOf(b))
    requires Print(t, a) == Print(t, b)
    ensures a == b
  {
    RoundTrip(t, a);
    RoundTrip(t, b);
  }

  /** Keys of different tables never meet. */
  lemma KeysNameTheirTable(t: Table, a: Key, u: Table, b: Key)
    requires Fits(t, a) && Fits(u, b) && AllGood(ValuesOf(a)) && AllGood(ValuesOf(b))
    requires Print(t, a) == Print(u, b)
    ensures t.dbId == u.dbId && t.id == u.id
  {
    KeyTokensFound(t, a);
    KeyTokensFound(u, b);
    assert KeyTokens(t, a)[0] == Pad(t.dbId) && KeyTokens(t, a)[1] == Pad(t.id);
    assert KeyTokens(u, b)[0] == Pad(u.dbId) && KeyTokens(u, b)[1] == Pad(u.id);
    PadRoundTrip(t.dbId);
    PadRoundTrip(t.id);
    PadRoundTrip(u.dbId);
    PadRoundTrip(u.id);
  }
}
