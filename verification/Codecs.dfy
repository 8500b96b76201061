/** The assumption about JSON dumping and parsing can be met: one codec that meets it. */
module Codecs {
  import opened Common
  import opened OpenAI

  // ---------------------------------------------------------------- a notation in which nothing begins another

  function Tally(n: nat): string {
    if n == 0 then "." else "1" + Tally(n - 1)
  }

  function Signed(n: int): string {
    if n >= 0 then "+" + Tally(n) else "-" + Tally(-n)
  }

  function Quoted(s: string): string {
    Tally(|s|) + s
  }

  function Dump(j: Json): string
    decreases j, 1, 0
  {
    match j
    case JNull => "n"
    case JBool(b) => if b then "t" else "f"
    case JInt(n) => "i" + Signed(n)
    case JFloat(m, e) => "r" + Signed(m) + Signed(e)
    case JStr(s) => "s" + Quoted(s)
    case JArr(_) => "[" + Items(j, 0)
    case JObj(_) => "{" + Fields(j, 0)
  }

  /** The items from `k` on, and the closing bracket. */
  function Items(j: Json, k: nat): string
    requires j.JArr? && k <= |j.items|
    decreases j, 0, |j.items| - k
  {
    if k == |j.items| then "]" else "," + Dump(j.items[k]) + Items(j, k + 1)
  }

  function Fields(j: Json, k: nat): string
    requires j.JObj? && k <= |j.fields|
    decreases j, 0, |j.fields| - k
  {
    if k == |j.fields| then "}" else "," + Quoted(j.fields[k].0) + Dump(j.fields[k].1) + Fields(j, k + 1)
  }

  // ---------------------------------------------------------------- reading it is unambiguous

  lemma Strip(p: string, x: string, q: string, y: string)
    requires |p| == |q| && p + x == q + y
    ensures p == q && x == y
  {
    assert p == (p + x)[..|p|] && q == (q + y)[..|q|];
    assert x == (p + x)[|p|..] && y == (q + y)[|q|..];
  }

  lemma Assoc(a: string, b: string, c: string)
    ensures a + b + c == a + (b + c)
  {
  }

  lemma {:induction false} TallyReads(m: nat, n: nat, x: string, y: string)
    requires Tally(m) + x == Tally(n) + y
    ensures m == n && x == y
  {
    var s, t := Tally(m) + x, Tally(n) + y;
    assert s[0] == (if m == 0 then '.' else '1') && t[0] == (if n == 0 then '.' else '1');
    if m == 0 {
      Strip(".", x, ".", y);
    } else {
      Assoc("1", Tally(m - 1), x);
      Assoc("1", Tally(n - 1), y);
      Strip("1", Tally(m - 1) + x, "1", Tally(n - 1) + y);
      TallyReads(m - 1, n - 1, x, y);
    }
  }

  lemma SignedReads(m: int, n: int, x: string, y: string)
    requires Signed(m) + x == Signed(n) + y
    ensures m == n && x == y
  {
    var s, t := Signed(m) + x, Signed(n) + y;
    assert s[0] == (if m >= 0 then '+' else '-') && t[0] == (if n >= 0 then '+' else '-');
    var sign, a, b := if m >= 0 then "+" else "-", if m >= 0 then m else -m, if n >= 0 then n else -n;
    Assoc(sign, Tally(a), x);
    Assoc(sign, Tally(b), y);
    Strip(sign, Tally(a) + x, sign, Tally(b) + y);
    TallyReads(a, b, x, y);
  }

  lemma QuotedReads(s: string, t: string, x: string, y: string)
    requires Quoted(s) + x == Quoted(t) + y
    ensures s == t && x == y
  {
    Assoc(Tally(|s|), s, x);
    Assoc(Tally(|t|), t, y);
    TallyReads(|s|, |t|, s + x, t + y);
    Strip(s, x, t, y);
  }

  function Kind(j: Json): char {
    match j
    case JNull => 'n'
    case JBool(b) => if b then 't' else 'f'
    case JInt(_) => 'i'
    case JFloat(_, _) => 'r'
    case JStr(_) => 's'
    case JArr(_) => '['
    case JObj(_) => '{'
  }

  function Rest(j: Json): string {
    match j
    case JNull => ""
    case JBool(_) => ""
    case JInt(n) => Signed(n)
    case JFloat(m, e) => Signed(m) + Signed(e)
    case JStr(s) => Quoted(s)
    case JArr(_) => Items(j, 0)
    case JObj(_) => Fields(j, 0)
  }

  lemma DumpIsKindAndRest(j: Json)
    ensures Dump(j) == [Kind(j)] + Rest(j)
  {
    hide Signed, Quoted, Items, Fields;
    if j.JFloat? {
      Assoc("r", Signed(j.mantissa), Signed(j.exponent));
    }
  }

  lemma SameKind(j: Json, l: Json, x: string, y: string)
    requires Dump(j) + x == Dump(l) + y
    ensures Kind(j) == Kind(l) && Rest(j) + x == Rest(l) + y
  {
    hide Dump, Kind, Rest;
    DumpIsKindAndRest(j);
    DumpIsKindAndRest(l);
    Assoc([Kind(j)], Rest(j), x);
    Assoc([Kind(l)], Rest(l), y);
    Strip([Kind(j)], Rest(j) + x, [Kind(l)], Rest(l) + y);
  }

  /** A dump is read back in one way, whatever follows it. */
  lemma {:induction false} DumpReads(j: Json, l: Json, x: string, y: string)
    requires Dump(j) + x == Dump(l) + y
    ensures j == l && x == y
    decreases j, 1, 0
  {
    hide Dump, Signed, Quoted, Items, Fields;
    SameKind(j, l, x, y);
    match j
    case JNull => Strip("", x, "", y);
    case JBool(_) => Strip("", x, "", y);
    case JInt(n) => SignedReads(n, l.n, x, y);
    case JFloat(m, e) =>
      Assoc(Signed(m), Signed(e), x);
      Assoc(Signed(l.mantissa), Signed(l.exponent), y);
      SignedReads(m, l.mantissa, Signed(e) + x, Signed(l.exponent) + y);
      SignedReads(e, l.exponent, x, y);
    case JStr(s) => QuotedReads(s, l.s, x, y);
    case JArr(items) =>
      ItemsRead(j, l, 0, x, y);
    case JObj(fields) =>
      FieldsRead(j, l, 0, x, y);
  }

  lemma {:induction false} ItemsRead(j: Json, l: Json, k: nat, x: string, y: string)
    requires j.JArr? && l.JArr? && k <= |j.items| && k <= |l.items| && j.items[..k] == l.items[..k]
    requires Items(j, k) + x == Items(l, k) + y
    ensures j == l && x == y
    decreases j, 0, |j.items| - k
  {
    hide Dump;
    var s, t := Items(j, k) + x, Items(l, k) + y;
    assert s[0] == (if k == |j.items| then ']' else ',') && t[0] == (if k == |l.items| then ']' else ',');
    if k == |j.items| {
      Strip("]", x, "]", y);
      assert j.items == j.items[..k] && l.items == l.items[..k];
    } else {
      var a, b, c, d := Dump(j.items[k]), Items(j, k + 1), Dump(l.items[k]), Items(l, k + 1);
      hide Items;
      FourParts(",", a, b, x);
      FourParts(",", c, d, y);
      Strip(",", a + (b + x), ",", c + (d + y));
      DumpReads(j.items[k], l.items[k], b + x, d + y);
      assert j.items[..k + 1] == j.items[..k] + [j.items[k]] && l.items[..k + 1] == l.items[..k] + [l.items[k]];
      ItemsRead(j, l, k + 1, x, y);
    }
  }

  lemma FourParts(a: string, b: string, c: string, d: string)
    ensures a + b + c + d == a + (b + (c + d))
  {
  }

  lemma FiveParts(a: string, b: string, c: string, d: string, e: string)
    ensures a + b + c + d + e == a + (b + (c + (d + e)))
  {
  }

  lemma {:induction false} FieldsRead(j: Json, l: Json, k: nat, x: string, y: string)
    requires j.JObj? && l.JObj? && k <= |j.fields| && k <= |l.fields| && j.fields[..k] == l.fields[..k]
    requires Fields(j, k) + x == Fields(l, k) + y
    ensures j == l && x == y
    decreases j, 0, |j.fields| - k
  {
    hide Dump, Quoted;
    var s, t := Fields(j, k) + x, Fields(l, k) + y;
    assert s[0] == (if k == |j.fields| then '}' else ',') && t[0] == (if k == |l.fields| then '}' else ',');
    if k == |j.fields| {
      Strip("}", x, "}", y);
      assert j.fields == j.fields[..k] && l.fields == l.fields[..k];
    } else {
      var f, g := j.fields[k], l.fields[k];
      var p, a, b := Quoted(f.0), Dump(f.1), Fields(j, k + 1);
      var q, c, d := Quoted(g.0), Dump(g.1), Fields(l, k + 1);
      hide Fields;
      FiveParts(",", p, a, b, x);
      FiveParts(",", q, c, d, y);
      Strip(",", p + (a + (b + x)), ",", q + (c + (d + y)));
      QuotedReads(f.0, g.0, a + (b + x), c + (d + y));
      DumpReads(f.1, g.1, b + x, d + y);
      assert j.fields[..k + 1] == j.fields[..k] + [f] && l.fields[..k + 1] == l.fields[..k] + [g];
      FieldsRead(j, l, k + 1, x, y);
    }
  }

  // ---------------------------------------------------------------- the codec

  ghost predicate Dumped(j: Json, s: string) {
    Held(j) && Dump(j) == s
  }

  /** The value whose dump `s` is, if there is one. */
  ghost function Load(s: string): (o: Option<Json>)
    ensures o.Some? ==> Dumped(o.value, s)
    ensures o.None? ==> forall j :: !Dumped(j, s)
  {
    if exists j :: Dumped(j, s) then (var j :| Dumped(j, s); Some(j)) else None
  }

  ghost function Plain(): Codec {
    Codec(j => Dump(j), s => Load(s))
  }

  lemma PlainIsSound()
    ensures Sound(Plain())
  {
    var c := Plain();
    forall j | Held(j) ensures c.loads(c.dumps(j)) == Some(j) {
      assert Dumped(j, Dump(j));
      var l := Load(Dump(j)).value;
      assert Dump(j) + "" == Dump(l) + "";
      DumpReads(j, l, "", "");
    }
    EmptyObjectIsBraces();
  }

  /** There is a codec that is sound: nothing proved under that assumption is proved of nothing. */
  lemma SomeCodecIsSound()
    ensures exists c :: Sound(c)
  {
    PlainIsSound();
  }

  lemma EmptyObjectIsBraces()
    ensures Load("{}") == Some(EMPTY_OBJECT) && Load("") == None
  {
    assert Fields(EMPTY_OBJECT, 0) == "}";
    assert Dump(EMPTY_OBJECT) == "{}";
    assert Dumped(EMPTY_OBJECT, "{}");
    var l := Load("{}").value;
    assert Dump(l) + "" == Dump(EMPTY_OBJECT) + "";
    DumpReads(l, EMPTY_OBJECT, "", "");
    forall j ensures !Dumped(j, "") {
      DumpIsKindAndRest(j);
    }
  }

  /** With this codec the arguments "[]" are read as an empty list and come back as an empty object. */
  lemma EmptyListBecomesObject()
    ensures var c := Plain();
            && Sound(c)
            && ReadArguments(c, "[]") == JArr([])
            && ReadArguments(c, WriteInput(c, ReadArguments(c, "[]"))) == EMPTY_OBJECT
  {
    PlainIsSound();
    var c, list := Plain(), JArr([]);
    assert Items(list, 0) == "]";
    assert Dump(list) == "[]";
    assert Held(list);
    hide Held, Dump;
    assert c.loads(c.dumps(list)) == Some(list);
    assert Held(EMPTY_OBJECT);
    assert c.loads(c.dumps(EMPTY_OBJECT)) == Some(EMPTY_OBJECT);
  }
}
