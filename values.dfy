/** The result payload an Ansible task hands to the callback, as the closed union of the Python
    values that occur in it, with the dictionary operations and the `str`/`repr` conversions the
    callback applies to it. */
module Values {
  import opened Text

  datatype Option<T> = None | Some(value: T)

  /** The Python exceptions that the modelled code can raise. */
  datatype PyError = IndexError | TypeError | AttributeError

  datatype Result<T> = Ok(value: T) | Err(error: PyError)

  /** A result payload: `None`, a `bool`, an `int`, a `str`, a `dict` (its entries in insertion
      order, string keys) or a `list`. Floats are not part of the model. */
  datatype Value =
    | Null
    | Bool(b: bool)
    | Int(i: int)
    | Str(s: string)
    | Dict(entries: seq<(string, Value)>)
    | List(items: seq<Value>)

  /** The keys of a dict, in insertion order. */
  function Keys(e: seq<(string, Value)>): (r: seq<string>)
    ensures |r| == |e| && forall j :: 0 <= j < |e| ==> r[j] == e[j].0
  {
    seq(|e|, j requires 0 <= j < |e| => e[j].0)
  }

  /** A Python dict never holds one key twice. */
  predicate UniqueKeys(e: seq<(string, Value)>)
  {
    forall i, j :: 0 <= i < j < |e| ==> e[i].0 != e[j].0
  }

  /** The position of key `k` (its first one), or -1 when `k` is absent. */
  function Find(e: seq<(string, Value)>, k: string): (r: int)
    ensures -1 <= r < |e|
    ensures 0 <= r ==> e[r].0 == k
    ensures forall j :: 0 <= j < |e| && (r < 0 || j < r) ==> e[j].0 != k
  {
    if |e| == 0 then -1
    else if e[0].0 == k then 0
    else var j := Find(e[1..], k); if j < 0 then -1 else j + 1
  }

  /** `k in d`. */
  predicate HasKey(e: seq<(string, Value)>, k: string)
  {
    Find(e, k) >= 0
  }

  /** `d.get(k)`. */
  function Get(e: seq<(string, Value)>, k: string): Option<Value>
  {
    var i := Find(e, k);
    if i >= 0 then Some(e[i].1) else None
  }

  /** Find depends on the keys alone. */
  lemma FindSameKeys(e1: seq<(string, Value)>, e2: seq<(string, Value)>, k: string)
    requires Keys(e1) == Keys(e2)
    ensures Find(e1, k) == Find(e2, k)
  {
    var a, b := Find(e1, k), Find(e2, k);
    assert |e1| == |Keys(e1)| == |e2|;
    if a >= 0 { assert e2[a].0 == Keys(e2)[a] == Keys(e1)[a] == k; }
    if b >= 0 { assert e1[b].0 == Keys(e1)[b] == Keys(e2)[b] == k; }
  }

  lemma FindAppend(e: seq<(string, Value)>, k: string, v: Value, k': string)
    ensures Find(e + [(k, v)], k') == (if k' == k && Find(e, k') < 0 then |e| else Find(e, k'))
  {
    var r := e + [(k, v)];
    var a := Find(e, k');
    if a >= 0 {
      assert r[a].0 == k';
    } else if k' == k {
      assert r[|e|].0 == k;
    }
  }

  /** `d[k] = v`: an existing key keeps its position, a new key goes last. */
  function SetKey(e: seq<(string, Value)>, k: string, v: Value): (r: seq<(string, Value)>)
    ensures Get(r, k) == Some(v)
    ensures forall k' :: k' != k ==> Get(r, k') == Get(e, k')
    ensures HasKey(e, k) ==> Keys(r) == Keys(e)
    ensures !HasKey(e, k) ==> r == e + [(k, v)]
  {
    var i := Find(e, k);
    if i >= 0 then
      var r := e[i := (k, v)];
      assert Keys(r) == Keys(e);
      assert forall k' :: Find(r, k') == Find(e, k') by {
        forall k' { FindSameKeys(r, e, k'); }
      }
      r
    else
      var r := e + [(k, v)];
      assert forall k' :: Find(r, k') == (if k' == k && Find(e, k') < 0 then |e| else Find(e, k')) by {
        forall k' { FindAppend(e, k, v, k'); }
      }
      assert forall j :: 0 <= j < |e| ==> r[j] == e[j];
      r
  }

  /** The dict without key `k` (`d.pop(k, None)` on a copy). */
  function Remove(e: seq<(string, Value)>, k: string): (r: seq<(string, Value)>)
    ensures !HasKey(r, k)
    ensures forall k' :: k' != k ==> Get(r, k') == Get(e, k')
    ensures forall j :: 0 <= j < |r| ==> r[j] in e
  {
    if |e| == 0 then []
    else if e[0].0 == k then
      assert e == [e[0]] + e[1..];
      assert forall k' :: k' != k ==> Get(e, k') == Get(e[1..], k') by {
        forall k' { GetCons(e[0], e[1..], k'); }
      }
      Remove(e[1..], k)
    else
      var t := Remove(e[1..], k);
      var r := [e[0]] + t;
      assert e == [e[0]] + e[1..];
      assert forall k' :: k' != k ==> Get(r, k') == Get(e, k') by {
        forall k' | k' != k ensures Get(r, k') == Get(e, k') {
          GetCons(e[0], t, k');
          GetCons(e[0], e[1..], k');
        }
      }
      r
  }

  /** Removing an absent key changes nothing. */
  lemma {:induction false} RemoveAbsent(e: seq<(string, Value)>, k: string)
    requires !HasKey(e, k)
    ensures Remove(e, k) == e
  {
    if |e| > 0 {
      RemoveAbsent(e[1..], k);
      assert e == [e[0]] + e[1..];
    }
  }

  /** `pop` keeps the order of the other entries: the dict loses exactly the entry under `k`. */
  lemma {:induction false} RemoveKeepsOrder(e: seq<(string, Value)>, k: string)
    requires UniqueKeys(e) && HasKey(e, k)
    ensures Remove(e, k) == e[..Find(e, k)] + e[Find(e, k) + 1..]
  {
    if e[0].0 == k {
      UniqueTailLacksHead(e);
      RemoveAbsent(e[1..], k);
    } else {
      var t, i := RemovePastHead(e, k);
      RemoveKeepsOrder(t, k);
      SpliceAfterHead(e, i);
    }
  }

  /** Past a head entry under another key, Remove and Find work on the tail `t`, where `k` is at `i`. */
  lemma RemovePastHead(e: seq<(string, Value)>, k: string) returns (t: seq<(string, Value)>, i: nat)
    requires UniqueKeys(e) && HasKey(e, k) && e[0].0 != k
    ensures t == e[1..] && UniqueKeys(t) && HasKey(t, k)
    ensures i == Find(t, k) && Find(e, k) == i + 1 && i < |e| - 1
    ensures Remove(e, k) == [e[0]] + Remove(t, k)
  {
    t := e[1..];
    i := Find(t, k);
  }

  lemma SpliceAfterHead(e: seq<(string, Value)>, i: nat)
    requires i < |e| - 1
    ensures [e[0]] + (e[1..][..i] + e[1..][i + 1..]) == e[..i + 1] + e[i + 2..]
  {
    assert e[..i + 1] == [e[0]] + e[1..][..i];
    assert e[i + 2..] == e[1..][i + 1..];
  }

  /** In a dict the first key does not occur again. */
  lemma UniqueTailLacksHead(e: seq<(string, Value)>)
    requires UniqueKeys(e) && |e| > 0
    ensures !HasKey(e[1..], e[0].0)
  {
    var j := Find(e[1..], e[0].0);
    if j >= 0 {
      assert e[j + 1].0 == e[1..][j].0;
    }
  }

  /** Removal looks at keys only: entries under `k` may hold any value. */
  lemma {:induction false} RemoveIgnoresValues(e1: seq<(string, Value)>, e2: seq<(string, Value)>, k: string)
    requires |e1| == |e2|
    requires forall j :: 0 <= j < |e1| ==> e1[j] == e2[j] || (e1[j].0 == k && e2[j].0 == k)
    ensures Remove(e1, k) == Remove(e2, k)
  {
    if |e1| > 0 {
      RemoveIgnoresValues(e1[1..], e2[1..], k);
    }
  }

  lemma {:induction false} RemoveAppend(e: seq<(string, Value)>, k: string, v: Value)
    ensures Remove(e + [(k, v)], k) == Remove(e, k)
  {
    if |e| == 0 {
      assert Remove([(k, v)], k) == Remove([], k);
    } else {
      assert (e + [(k, v)])[1..] == e[1..] + [(k, v)];
      RemoveAppend(e[1..], k, v);
    }
  }

  /** Whatever `d[k]` held, or whether it existed, the dict without `k` is the same. */
  lemma RemoveSetKey(e: seq<(string, Value)>, k: string, v: Value)
    ensures Remove(SetKey(e, k, v), k) == Remove(e, k)
  {
    if HasKey(e, k) {
      RemoveIgnoresValues(SetKey(e, k, v), e, k);
    } else {
      RemoveAppend(e, k, v);
    }
  }

  lemma GetCons(p: (string, Value), t: seq<(string, Value)>, k: string)
    ensures Get([p] + t, k) == if p.0 == k then Some(p.1) else Get(t, k)
  {
    assert ([p] + t)[1..] == t;
  }

  // ----- str() and repr() -----

  /** `str(v)`: a string is itself; anything else is its `repr`, which never breaks a line. */
  function PyStr(v: Value): (r: string)
    ensures !v.Str? ==> '\n' !in r
  {
    if v.Str? then v.s else Repr(v)
  }

  /** `repr(v)`: containers show their elements with `repr`, separated by ", ". Line breaks inside
      strings are escaped, so the text is a single line. */
  function Repr(v: Value): (r: string)
    ensures '\n' !in r
  {
    match v
    case Null => "None"
    case Bool(b) => if b then "True" else "False"
    case Int(i) => assert '\n' !in NatText(if i < 0 then -i else i); IntText(i)
    case Str(s) => StrRepr(s)
    case List(xs) =>
      var parts := seq(|xs|, j requires 0 <= j < |xs| => Repr(xs[j]));
      JoinAvoids(parts, ", ", '\n');
      "[" + Join(parts, ", ") + "]"
    case Dict(e) =>
      var parts := seq(|e|, j requires 0 <= j < |e| => StrRepr(e[j].0) + ": " + Repr(e[j].1));
      JoinAvoids(parts, ", ", '\n');
      "{" + Join(parts, ", ") + "}"
  }

  /** `repr(s)`: single quotes, or double quotes when `s` holds a single quote and no double quote. */
  function StrRepr(s: string): (r: string)
    ensures '\n' !in r
  {
    var q := if '\'' in s && '"' !in s then '"' else '\'';
    [q] + ReprBody(s, q) + [q]
  }

  function ReprBody(s: string, q: char): (r: string)
    requires q != '\n'
    ensures '\n' !in r
  {
    if |s| == 0 then "" else ReprChar(s[0], q) + ReprBody(s[1..], q)
  }

  /** One character inside a quoted `repr`: the quote and the backslash are escaped, tab, newline and
      carriage return get their short escapes, other control characters and DEL become `\xhh`. */
  function ReprChar(c: char, q: char): (r: string)
    requires q != '\n'
    ensures '\n' !in r
  {
    if c == q || c == '\\' then ['\\', c]
    else if c == '\t' then "\\t"
    else if c == '\n' then "\\n"
    else if c == '\r' then "\\r"
    else if c < ' ' || c as int == 0x7f then "\\x" + HexDigits(c as int, 2)
    else [c]
  }
}
