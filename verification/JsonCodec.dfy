/** JSON text, abstractly: what the wire protocol asks of printing and parsing, and that it can be met. */
module JsonCodec {
  import opened Base
  import opened Text
  import opened Checkpoints

  datatype Codec = Codec(dumps: Json -> string, loads: string -> Option<Json>)

  /** `j` is printed without blanks at either end and reads back as itself, with or without a final newline. */
  predicate Faithful(c: Codec, j: Json) {
    var text := c.dumps(j);
    && c.loads(text) == c.loads(text + "\n") == Some(j)
    && Strip(text) == text != ""
  }

  // ---- a codec that is faithful on every value -----------------------------------

  /** A text that ends where it says it does. */
  function Framed(s: string): (r: string)
    ensures |r| > 0 && r[|r| - 1] == '!'
  {
    if s == "" then "!" else ['.', s[0]] + Framed(s[1..])
  }

  lemma {:induction false} FramedUnique(a: string, b: string, x: string, y: string)
    requires Framed(a) + x == Framed(b) + y
    ensures a == b && x == y
  {
    var l, r := Framed(a) + x, Framed(b) + y;
    assert l[0] == r[0];
    if a == "" {
      assert l[1..] == x && r[1..] == y;
    } else {
      assert l[1] == r[1];
      assert l[2..] == Framed(a[1..]) + x && r[2..] == Framed(b[1..]) + y;
      FramedUnique(a[1..], b[1..], x, y);
      assert a == [a[0]] + a[1..] && b == [b[0]] + b[1..];
    }
  }

  function Sign(n: int): char {
    if n < 0 then '-' else '+'
  }

  function Magnitude(n: int): nat {
    if n < 0 then -n else n
  }

  /** One character for each kind of value. */
  function Tag(j: Json): char {
    match j
    case JNull => 'n'
    case JBool(flag) => if flag then 't' else 'f'
    case JInt(num) => Sign(num)
    case JFloat(_) => 'd'
    case JStr(_) => 's'
    case JArr(_) => '['
    case JObj(_) => '{'
  }

  predicate Ended(r: string) {
    |r| > 0 && r[|r| - 1] == '!'
  }

  ghost function Print(j: Json): (r: string)
    ensures Ended(r)
    decreases j
  {
    [Tag(j)] + Payload(j)
  }

  ghost function Payload(j: Json): (r: string)
    ensures Ended(r)
    decreases j, 1
  {
    match j
    case JInt(num) => Framed(Dec(Magnitude(num)))
    case JFloat(float) => Framed(Dec(float))
    case JStr(str) => Framed(str)
    case JArr(items) => PrintItems(j, 0)
    case JObj(fields) => PrintFields(j, fields)
    case _ => "!"
  }

  ghost function PrintItems(j: Json, i: nat): (r: string)
    requires j.JArr? && i <= |j.items|
    ensures Ended(r)
    decreases j, 0, |j.items| - i
  {
    if i == |j.items| then "!" else "," + Print(j.items[i]) + PrintItems(j, i + 1)
  }

  predicate PartOf(m: map<string, Json>, j: Json) {
    j.JObj? && forall k :: k in m ==> k in j.fields && m[k] == j.fields[k]
  }

  ghost function AnyKey(m: map<string, Json>): (k: string)
    requires m != map[]
    ensures k in m
  {
    var k :| k in m;
    k
  }

  ghost function PrintFields(j: Json, m: map<string, Json>): (r: string)
    requires PartOf(m, j)
    ensures Ended(r)
    decreases j, 0, |m|
  {
    if m == map[] then "!" else
      var k := AnyKey(m);
      "," + Entry(j, k) + PrintFields(j, m - {k})
  }

  ghost function Entry(j: Json, k: string): string
    requires j.JObj? && k in j.fields
    decreases j, 0, 0
  {
    Framed(k) + Print(j.fields[k])
  }

  lemma {:induction false} PrintUnique(a: Json, b: Json, x: string, y: string)
    requires Print(a) + x == Print(b) + y
    ensures a == b && x == y
    decreases a
  {
    hide *;
    PrintHead(a, x);
    PrintHead(b, y);
    HeadAndRest(Tag(a), Payload(a) + x, Tag(b), Payload(b) + y);
    PayloadUnique(a, b, x, y);
  }

  lemma PrintHead(j: Json, x: string)
    ensures Print(j) + x == [Tag(j)] + (Payload(j) + x)
  {
    hide Payload, Tag;
  }

  lemma HeadAndRest(c: char, l: string, d: char, r: string)
    requires [c] + l == [d] + r
    ensures c == d && l == r
  {
    assert ([c] + l)[0] == ([d] + r)[0];
    Peel(c, l, r);
  }

  lemma {:induction false} PayloadUnique(a: Json, b: Json, x: string, y: string)
    requires Tag(a) == Tag(b) && Payload(a) + x == Payload(b) + y
    ensures a == b && x == y
    decreases a, 1
  {
    match a {
      case JInt(num) =>
        FramedUnique(Dec(Magnitude(num)), Dec(Magnitude(b.num)), x, y);
        DecInjective(Magnitude(num), Magnitude(b.num));
      case JFloat(float) =>
        FramedUnique(Dec(float), Dec(b.float), x, y);
        DecInjective(float, b.float);
      case JStr(str) => FramedUnique(str, b.str, x, y);
      case JArr(items) =>
        ItemsUnique(a, 0, b, 0, x, y);
        assert items[0..] == items && b.items[0..] == b.items;
      case JObj(fields) => FieldsUnique(a, fields, b, b.fields, x, y);
      case _ => assert (Payload(a) + x)[1..] == x && (Payload(b) + y)[1..] == y;
    }
  }

  lemma Regroup(a: string, b: string, c: string, x: string)
    ensures a + b + c + x == a + (b + (c + x))
  {
  }

  lemma Peel(a: char, b: string, c: string)
    requires [a] + b == [a] + c
    ensures b == c
  {
    assert ([a] + b)[1..] == ([a] + c)[1..];
  }

  lemma {:induction false} ItemsUnique(a: Json, i: nat, b: Json, k: nat, x: string, y: string)
    requires a.JArr? && i <= |a.items| && b.JArr? && k <= |b.items|
    requires PrintItems(a, i) + x == PrintItems(b, k) + y
    ensures a.items[i..] == b.items[k..] && x == y
    decreases a, 0, |a.items| - i
  {
    if i == |a.items| || k == |b.items| {
      NoItems(a, i, b, k, x, y);
    } else {
      var restA, restB := PrintItems(a, i + 1), PrintItems(b, k + 1);
      assert PrintItems(a, i) == "," + Print(a.items[i]) + restA && PrintItems(b, k) == "," + Print(b.items[k]) + restB;
      hide Print, PrintItems;
      Regroup(",", Print(a.items[i]), restA, x);
      Regroup(",", Print(b.items[k]), restB, y);
      Peel(',', Print(a.items[i]) + (restA + x), Print(b.items[k]) + (restB + y));
      PrintUnique(a.items[i], b.items[k], restA + x, restB + y);
      ItemsUnique(a, i + 1, b, k + 1, x, y);
      assert a.items[i..] == [a.items[i]] + a.items[i + 1..] && b.items[k..] == [b.items[k]] + b.items[k + 1..];
    }
  }

  lemma NoItems(a: Json, i: nat, b: Json, k: nat, x: string, y: string)
    requires a.JArr? && i <= |a.items| && b.JArr? && k <= |b.items|
    requires PrintItems(a, i) + x == PrintItems(b, k) + y
    requires i == |a.items| || k == |b.items|
    ensures i == |a.items| && k == |b.items| && x == y
  {
    assert (PrintItems(a, i) + x)[0] == PrintItems(a, i)[0] && (PrintItems(b, k) + y)[0] == PrintItems(b, k)[0];
    Peel('!', x, y);
  }

  lemma {:induction false} EntryUnique(a: Json, k: string, b: Json, h: string, x: string, y: string)
    requires a.JObj? && k in a.fields && b.JObj? && h in b.fields && Entry(a, k) + x == Entry(b, h) + y
    ensures k == h && a.fields[k] == b.fields[h] && x == y
    decreases a, 0, 0
  {
    var v, w := Print(a.fields[k]), Print(b.fields[h]);
    assert Framed(k) + (v + x) == Entry(a, k) + x && Framed(h) + (w + y) == Entry(b, h) + y;
    FramedUnique(k, h, v + x, w + y);
    PrintUnique(a.fields[k], b.fields[h], x, y);
  }

  lemma {:induction false} FieldsUnique(a: Json, m: map<string, Json>, b: Json, n: map<string, Json>, x: string, y: string)
    requires PartOf(m, a) && PartOf(n, b) && PrintFields(a, m) + x == PrintFields(b, n) + y
    ensures m == n && x == y
    decreases a, 0, |m|
  {
    if m == map[] || n == map[] {
      NoFields(a, m, b, n, x, y);
    } else {
      var k, h := AnyKey(m), AnyKey(n);
      var restA, restB := PrintFields(a, m - {k}), PrintFields(b, n - {h});
      assert PrintFields(a, m) == "," + Entry(a, k) + restA && PrintFields(b, n) == "," + Entry(b, h) + restB;
      hide Entry, PrintFields;
      Regroup(",", Entry(a, k), restA, x);
      Regroup(",", Entry(b, h), restB, y);
      Peel(',', Entry(a, k) + (restA + x), Entry(b, h) + (restB + y));
      EntryUnique(a, k, b, h, restA + x, restB + y);
      FieldsUnique(a, m - {k}, b, n - {h}, x, y);
      PutBack(m, n, k);
    }
  }

  lemma PutBack(m: map<string, Json>, n: map<string, Json>, k: string)
    requires k in m && k in n && m[k] == n[k] && m - {k} == n - {k}
    ensures m == n
  {
    assert m == (m - {k})[k := m[k]] && n == (n - {k})[k := n[k]];
  }

  lemma FieldsStart(j: Json, m: map<string, Json>, x: string)
    requires PartOf(m, j)
    ensures (PrintFields(j, m) + x)[0] == if m == map[] then '!' else ','
  {
  }

  lemma NoFields(a: Json, m: map<string, Json>, b: Json, n: map<string, Json>, x: string, y: string)
    requires PartOf(m, a) && PartOf(n, b) && PrintFields(a, m) + x == PrintFields(b, n) + y
    requires m == map[] || n == map[]
    ensures m == n && x == y
  {
    FieldsStart(a, m, x);
    FieldsStart(b, n, y);
    Peel('!', x, y);
  }

  ghost predicate Prints(j: Json, text: string) {
    text == Print(j) || text == Print(j) + "\n"
  }

  lemma PrintsUnique(a: Json, b: Json, text: string)
    requires Prints(a, text) && Prints(b, text)
    ensures a == b
  {
    assert Print(a) + "" == Print(a) && Print(b) + "" == Print(b);
    PrintUnique(a, b, text[|Print(a)|..], text[|Print(b)|..]);
  }

  ghost function Read(text: string): Option<Json> {
    if exists j :: Prints(j, text) then
      var j :| Prints(j, text);
      Some(j)
    else None
  }

  ghost function PrintingCodec(): Codec {
    Codec(j => Print(j), text => Read(text))
  }

  /** So the theorems about faithful codecs are not about nothing: this one is faithful on every value. */
  lemma FaithfulCodecExists(j: Json)
    ensures Faithful(PrintingCodec(), j)
  {
    var text := Print(j);
    PrintedIs(j);
    hide Print, Strip, Prints, Read;
    ReadsBack(j, text);
    ReadsBack(j, text + "\n");
  }

  lemma PrintedIs(j: Json)
    ensures Prints(j, Print(j)) && Prints(j, Print(j) + "\n") && Strip(Print(j)) == Print(j) && Print(j) != ""
  {
    hide Strip, Payload, Tag, IsSpace;
    var text := Print(j);
    TagIsVisible(j);
    assert text[0] == Tag(j) && text[|text| - 1] == '!';
    hide Print;
    StripFixed(text);
  }

  lemma TagIsVisible(j: Json)
    ensures !IsSpace(Tag(j)) && !IsSpace('!')
  {
  }

  lemma ReadsBack(j: Json, text: string)
    requires Prints(j, text)
    ensures Read(text) == Some(j)
  {
    hide Prints;
    PrintsUnique(Read(text).value, j, text);
  }
}
