/** The two `json.dumps` calls of the callback, over the payload values: `json.dumps(x)` and
    `json.dumps(x, indent=2, sort_keys=True)`, with the default `ensure_ascii` escaping and the
    separators of Python 3. */
module Json {
  import opened Text
  import opened Values

  datatype Style =
    | Compact  // json.dumps(x): insertion order, separators ", " and ": "
    | Pretty   // json.dumps(x, indent=2, sort_keys=True): sorted keys, one element per line

  /** `json.dumps` of a payload value; the compact form always fits on one line. */
  function Dumps(v: Value, style: Style): (r: string)
    ensures style.Compact? ==> '\n' !in r
  {
    CompactIsOneLine(v, 0);
    Encode(v, style, 0)
  }

  /** The text of `v` nested `level` containers deep. */
  function Encode(v: Value, style: Style, level: nat): string
  {
    match v
    case Null => "null"
    case Bool(b) => if b then "true" else "false"
    case Int(i) => IntText(i)
    case Str(s) => Quote(s)
    case List(xs) =>
      if |xs| == 0 then "[]"
      else
        "[" + Open(style, level)
        + Join(seq(|xs|, j requires 0 <= j < |xs| => Encode(xs[j], style, level + 1)), ItemSep(style, level))
        + Close(style, level) + "]"
    case Dict(e) =>
      if |e| == 0 then "{}"
      else
        var es := EntryOrder(e, style);
        "{" + Open(style, level)
        + Join(seq(|es|, j requires 0 <= j < |es| =>
                 assert es[j] in e; Quote(es[j].0) + ": " + Encode(es[j].1, style, level + 1)),
               ItemSep(style, level))
        + Close(style, level) + "}"
  }

  /** The order in which a dict's entries are written. */
  function EntryOrder(e: seq<(string, Value)>, style: Style): (r: seq<(string, Value)>)
    ensures |r| == |e| && forall x :: x in r <==> x in e
  {
    if style.Pretty? then SortByKey(e) else e
  }

  function Indent(level: nat): string
  {
    if level == 0 then "" else "  " + Indent(level - 1)
  }

  function Open(style: Style, level: nat): string
  {
    if style.Pretty? then "\n" + Indent(level + 1) else ""
  }

  function ItemSep(style: Style, level: nat): string
  {
    if style.Pretty? then ",\n" + Indent(level + 1) else ", "
  }

  function Close(style: Style, level: nat): string
  {
    if style.Pretty? then "\n" + Indent(level) else ""
  }

  // ----- strings -----

  /** A JSON string literal with `ensure_ascii` escaping. */
  function Quote(s: string): string
  {
    "\"" + Escape(s) + "\""
  }

  /** The escaped body of a JSON string: only printable ASCII remains. */
  function Escape(s: string): (r: string)
    ensures forall i :: 0 <= i < |r| ==> ' ' <= r[i] <= '~'
  {
    if |s| == 0 then "" else EscapeChar(s[0]) + Escape(s[1..])
  }

  /** One character: the quote and the backslash, the five short escapes, printable ASCII kept,
      everything else as `\uXXXX` (a surrogate pair above U+FFFF). */
  function EscapeChar(c: char): (r: string)
    ensures forall i :: 0 <= i < |r| ==> ' ' <= r[i] <= '~'
  {
    if c == '"' then "\\\""
    else if c == '\\' then "\\\\"
    else if c == '\n' then "\\n"
    else if c == '\r' then "\\r"
    else if c == '\t' then "\\t"
    else if c as int == 0x08 then "\\b"
    else if c as int == 0x0c then "\\f"
    else if ' ' <= c <= '~' then [c]
    else if c as int < 0x1_0000 then "\\u" + HexDigits(c as int, 4)
    else
      var n := c as int - 0x1_0000;
      "\\u" + HexDigits(0xD800 + n / 0x400, 4) + "\\u" + HexDigits(0xDC00 + n % 0x400, 4)
  }

  // ----- sort_keys -----

  /** Keys never decrease along the entries. */
  predicate KeysAscending(s: seq<(string, Value)>)
  {
    forall i, j :: 0 <= i < j < |s| ==> !Less(s[j].0, s[i].0)
  }

  /** Keys strictly increase along the entries (so no key occurs twice). */
  predicate KeysStrictlyAscending(s: seq<(string, Value)>)
  {
    forall i, j :: 0 <= i < j < |s| ==> Less(s[i].0, s[j].0)
  }

  /** `sorted(d.items())`: the same entries, in ascending key order. */
  function SortByKey(e: seq<(string, Value)>): (r: seq<(string, Value)>)
    ensures |r| == |e| && forall x :: x in r <==> x in e
    ensures KeysAscending(r)
    ensures UniqueKeys(e) ==> KeysStrictlyAscending(r)
  {
    if |e| == 0 then []
    else
      assert forall x :: x in e[1..] ==> x.0 != e[0].0 || !UniqueKeys(e);
      Insert(e[0], SortByKey(e[1..]))
  }

  function Insert(p: (string, Value), s: seq<(string, Value)>): (r: seq<(string, Value)>)
    requires KeysAscending(s)
    ensures |r| == |s| + 1 && forall x :: x in r <==> x == p || x in s
    ensures KeysAscending(r)
    ensures KeysStrictlyAscending(s) && (forall x :: x in s ==> x.0 != p.0) ==> KeysStrictlyAscending(r)
  {
    if |s| == 0 then [p]
    else if !Less(s[0].0, p.0) then
      InsertFront(p, s);
      [p] + s
    else
      var t := Insert(p, s[1..]);
      LessAsymmetric(s[0].0, p.0);
      assert forall x :: x in t ==> !Less(x.0, s[0].0) && (KeysStrictlyAscending(s) ==> Less(s[0].0, x.0));
      [s[0]] + t
  }

  lemma InsertFront(p: (string, Value), s: seq<(string, Value)>)
    requires |s| > 0 && KeysAscending(s) && !Less(s[0].0, p.0)
    ensures KeysAscending([p] + s)
    ensures KeysStrictlyAscending(s) && (forall x :: x in s ==> x.0 != p.0) ==> KeysStrictlyAscending([p] + s)
  {
    forall j | 0 <= j < |s| ensures !Less(s[j].0, p.0) {
      if j > 0 {
        NotLessTransitive(p.0, s[0].0, s[j].0);
      }
    }
    if KeysStrictlyAscending(s) && (forall x :: x in s ==> x.0 != p.0) {
      LessTotal(p.0, s[0].0);
      forall j | 0 <= j < |s| ensures Less(p.0, s[j].0) {
        if j > 0 {
          LessTransitive(p.0, s[0].0, s[j].0);
        }
      }
    }
  }

  /** Two strictly key-ordered entry lists holding the same entries are the same list. */
  lemma {:induction false} StrictlyAscendingUnique(s1: seq<(string, Value)>, s2: seq<(string, Value)>)
    requires KeysStrictlyAscending(s1) && KeysStrictlyAscending(s2)
    requires forall x :: x in s1 <==> x in s2
    ensures s1 == s2
  {
    SameItemsSameEmptiness(s1, s2);
    if |s1| > 0 {
      assert s1[0] in s2 && s2[0] in s1;
      var i :| 0 <= i < |s1| && s1[i] == s2[0];
      var j :| 0 <= j < |s2| && s2[j] == s1[0];
      if i > 0 {
        if j > 0 {
          LessAsymmetric(s1[0].0, s1[i].0);
        } else {
          LessIrreflexive(s1[0].0);
        }
      }
      assert s1[0] == s2[0];
      forall x ensures x in s1[1..] ==> x in s2[1..] {
        if x in s1[1..] {
          InTail(s1, s2, x);
        }
      }
      forall x ensures x in s2[1..] ==> x in s1[1..] {
        if x in s2[1..] {
          InTail(s2, s1, x);
        }
      }
      StrictlyAscendingUnique(s1[1..], s2[1..]);
      assert s1 == [s1[0]] + s1[1..] && s2 == [s2[0]] + s2[1..];
    }
  }

  lemma SameItemsSameEmptiness(s1: seq<(string, Value)>, s2: seq<(string, Value)>)
    requires forall x :: x in s1 <==> x in s2
    ensures |s1| == 0 <==> |s2| == 0
  {
    if |s1| > 0 { assert s1[0] in s2; }
    if |s2| > 0 { assert s2[0] in s1; }
  }

  lemma InTail(s1: seq<(string, Value)>, s2: seq<(string, Value)>, x: (string, Value))
    requires KeysStrictlyAscending(s1) && KeysStrictlyAscending(s2)
    requires forall y :: y in s1 <==> y in s2
    requires |s1| > 0 && |s2| > 0 && s1[0] == s2[0] && x in s1[1..]
    ensures x in s2[1..]
  {
    var k :| 1 <= k < |s1| && s1[k] == x;
    LessIrreflexive(x.0);
    assert x != s2[0];
    assert x in s1 && x in s2;
    var m :| 0 <= m < |s2| && s2[m] == x;
    assert s2[1..][m - 1] == x;
  }

  /** `sort_keys=True` makes the text of a dict a function of its items: two dicts with the same
      items, inserted in any order, are written identically. */
  lemma PrettyIgnoresInsertionOrder(e1: seq<(string, Value)>, e2: seq<(string, Value)>, level: nat)
    requires UniqueKeys(e1) && UniqueKeys(e2)
    requires forall x :: x in e1 <==> x in e2
    ensures Encode(Dict(e1), Pretty, level) == Encode(Dict(e2), Pretty, level)
  {
    StrictlyAscendingUnique(SortByKey(e1), SortByKey(e2));
  }

  // ----- layout -----

  lemma QuoteIsOneLine(s: string)
    ensures '\n' !in Quote(s)
  {
  }

  lemma IntTextIsOneLine(i: int)
    ensures '\n' !in IntText(i)
  {
  }

  /** `json.dumps(x)` writes a single line, whatever the payload holds. */
  lemma {:induction false} CompactIsOneLine(v: Value, level: nat)
    ensures '\n' !in Encode(v, Compact, level)
  {
    match v
    case Null =>
    case Bool(_) =>
    case Int(i) =>
      IntTextIsOneLine(i);
    case Str(s) =>
      QuoteIsOneLine(s);
    case List(xs) =>
      if |xs| > 0 {
        var parts := seq(|xs|, j requires 0 <= j < |xs| => Encode(xs[j], Compact, level + 1));
        forall j | 0 <= j < |xs| ensures '\n' !in parts[j] {
          CompactIsOneLine(xs[j], level + 1);
        }
        JoinAvoids(parts, ", ", '\n');
      }
    case Dict(e) =>
      if |e| > 0 {
        var parts := seq(|e|, j requires 0 <= j < |e| =>
                       assert e[j] in e; Quote(e[j].0) + ": " + Encode(e[j].1, Compact, level + 1));
        forall j | 0 <= j < |e| ensures '\n' !in parts[j] {
          CompactIsOneLine(e[j].1, level + 1);
          QuoteIsOneLine(e[j].0);
        }
        JoinAvoids(parts, ", ", '\n');
      }
  }
}
