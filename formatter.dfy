/** `CallbackModule._format_output`: the rendering of one task result payload as log text. */
module Formatter {
  import opened Text
  import opened Values
  import opened Json

  /** The verbose fields that are re-rendered inside each dict of a list of dicts. */
  const FIELDS: seq<string> := ["cmd", "command", "start", "end", "delta", "msg", "stdout", "stderr", "results"]

  /** A flattened string list longer than this (joined without separators) is written as a block. */
  const INLINE_LIMIT := 75

  /** What a substitution pass leaves behind, and the exception that stopped it, if any. */
  datatype Subst<T> = Subst(out: T, err: Option<PyError>)

  /** `_format_output(output)`: a dict as sorted, indented JSON; a list whose first element is a dict
      as that JSON after its dicts' verbose fields were re-rendered; any other list as its strings,
      split on newlines and joined inline or as a block; anything else through `str`. An empty list
      fails on `output[0]`. */
  function Format(v: Value): (r: Result<string>)
    ensures !v.List? ==> r.Ok?
    decreases v, 2
  {
    match v
    case Dict(_) => Ok(Dumps(v, Pretty))
    case List(items) =>
      if |items| == 0 then Err(IndexError)
      else if items[0].Dict? then
        var s := SubstItems(v, items, 0);
        if s.err.Some? then Err(s.err.value) else Ok(Dumps(List(s.out), Pretty))
      else StringListText(items)
    case _ => Ok(PyStr(v))
  }

  /** The dict-list loop from position `i` on; `acc` is the list as the loop has left it so far. */
  function SubstItems(whole: Value, acc: seq<Value>, i: nat): (r: Subst<seq<Value>>)
    requires whole.List? && |acc| == |whole.items| && i <= |acc|
    ensures |r.out| == |acc|
    decreases whole, 1, |acc| - i
  {
    if i == |acc| then Subst(acc, None)
    else
      var item := whole.items[i];
      if !item.Dict? then SubstItems(whole, acc, i + 1)
      else
        var s := SubstFields(item, item.entries, 0);
        var acc' := acc[i := Dict(s.out)];
        if s.err.Some? then Subst(acc', s.err) else SubstItems(whole, acc', i + 1)
  }

  /** The loop over FIELDS for one dict `item`, from field `k` on; `acc` is the dict as rewritten so
      far. A present field's value is replaced by the text `_format_output` gives for it. */
  function SubstFields(item: Value, acc: seq<(string, Value)>, k: nat): Subst<seq<(string, Value)>>
    requires item.Dict? && k <= |FIELDS|
    decreases item, 0, |FIELDS| - k
  {
    if k == |FIELDS| then Subst(acc, None)
    else
      var j := Find(item.entries, FIELDS[k]);
      if j < 0 then SubstFields(item, acc, k + 1)
      else
        match Format(item.entries[j].1)
        case Err(e) => Subst(acc, Some(e))
        case Ok(text) => SubstFields(item, SetKey(acc, FIELDS[k], Str(text)), k + 1)
  }

  // ----- the list-of-strings branch -----

  predicate AllStrings(vs: seq<Value>)
  {
    forall j :: 0 <= j < |vs| ==> vs[j].Str?
  }

  function Strs(ss: seq<string>): (r: seq<Value>)
    ensures |r| == |ss| && AllStrings(r)
  {
    seq(|ss|, j requires 0 <= j < |ss| => Str(ss[j]))
  }

  function Texts(vs: seq<Value>): (r: seq<string>)
    requires AllStrings(vs)
    ensures |r| == |vs|
  {
    seq(|vs|, j requires 0 <= j < |vs| => vs[j].s)
  }

  /** The rendering of a list whose first element is not a dict. */
  function StringListText(items: seq<Value>): Result<string>
  {
    match Flatten(items)
    case Err(e) => Err(e)
    case Ok(flat) =>
      if !AllStrings(flat) then Err(TypeError)  // "".join(real_output) meets a non-string
      else
        var lines := Texts(flat);
        if |Concat(lines)| > INLINE_LIMIT then Ok("\n" + Join(lines, "\n")) else Ok(Join(lines, " "))
  }

  /** `real_output` after the loop over `items`. */
  function Flatten(items: seq<Value>): (r: Result<seq<Value>>)
    ensures r.Ok? ==> |r.value| >= |items|
  {
    if |items| == 0 then Ok([])
    else
      match Flatten(items[..|items| - 1])
      case Err(e) => Err(e)
      case Ok(acc) => FlattenStep(acc, items[|items| - 1])
  }

  /** One turn of that loop: `"\n" in item` is a substring test on a string, a membership test on a
      list or a dict, and a TypeError on anything else; `item.split` exists only on strings. */
  function FlattenStep(acc: seq<Value>, item: Value): (r: Result<seq<Value>>)
    ensures r.Ok? ==> |r.value| > |acc|
  {
    match item
    case Str(s) => if '\n' in s then Ok(acc + Strs(SplitLines(s))) else Ok(acc + [item])
    case List(xs) => if Str("\n") in xs then Err(AttributeError) else Ok(acc + [item])
    case Dict(e) => if HasKey(e, "\n") then Err(AttributeError) else Ok(acc + [item])
    case _ => Err(TypeError)
  }

  /** The lines of a list of strings: each string's newline-separated pieces, in order. */
  function SplitAll(ss: seq<string>): seq<string>
  {
    if |ss| == 0 then [] else SplitAll(ss[..|ss| - 1]) + SplitLines(ss[|ss| - 1])
  }

  // ----- the imperative branches -----

  /** `_format_output(output)` run step by step: the list branches run their loops, the
      renderings of nested fields go through Format. */
  method FormatOutput(output: Value) returns (r: Result<string>)
    ensures r == Format(output)
  {
    match output {
      case Dict(_) =>
        r := Ok(Dumps(output, Pretty));
      case List(items) =>
        if |items| == 0 {
          r := Err(IndexError);
        } else if items[0].Dict? {
          var a := new Value[|items|](j requires 0 <= j < |items| => items[j]);
          assert a[..] == items;
          r := FormatDictList(a);
        } else {
          r := FormatStringList(items);
        }
      case _ =>
        r := Ok(PyStr(output));
    }
  }

  /** Lines 141-156: the `real_output` append loops over a list whose first element is not a dict,
      then the inline-or-block join. */
  method FormatStringList(items: seq<Value>) returns (r: Result<string>)
    requires |items| > 0 && !items[0].Dict?
    ensures r == Format(List(items))
  {
    var realOutput: seq<Value> := [];
    var i := 0;
    while i < |items|
      invariant 0 <= i <= |items|
      invariant Flatten(items[..i]) == Ok(realOutput)
    {
      assert items[..i + 1][..i] == items[..i];
      assert Flatten(items[..i + 1]) == FlattenStep(realOutput, items[i]);
      var item := items[i];
      match item {
        case Str(s) =>
          if '\n' in s {
            var pieces := SplitLines(s);
            var k := 0;
            assert pieces[k..] == pieces;
            while k < |pieces|
              invariant 0 <= k <= |pieces|
              invariant Flatten(items[..i + 1]) == Ok(realOutput + Strs(pieces[k..]))
            {
              assert Strs(pieces[k..]) == [Str(pieces[k])] + Strs(pieces[k + 1..]);
              assert realOutput + Strs(pieces[k..]) == (realOutput + [Str(pieces[k])]) + Strs(pieces[k + 1..]);
              realOutput := realOutput + [Str(pieces[k])];
              k := k + 1;
            }
            assert realOutput + Strs(pieces[k..]) == realOutput;
          } else {
            realOutput := realOutput + [item];
          }
        case List(xs) =>
          if Str("\n") in xs {
            FlattenFailsFrom(items, i + 1);
            return Err(AttributeError);
          }
          realOutput := realOutput + [item];
        case Dict(e) =>
          if HasKey(e, "\n") {
            FlattenFailsFrom(items, i + 1);
            return Err(AttributeError);
          }
          realOutput := realOutput + [item];
        case _ =>
          FlattenFailsFrom(items, i + 1);
          return Err(TypeError);
      }
      i := i + 1;
    }
    assert items[..i] == items;
    if !AllStrings(realOutput) {
      return Err(TypeError);
    }
    var lines := Texts(realOutput);
    if |Concat(lines)| > INLINE_LIMIT {
      r := Ok("\n" + Join(lines, "\n"));
    } else {
      r := Ok(Join(lines, " "));
    }
  }

  /** Once a prefix of the items fails, the whole loop fails with the same exception. */
  lemma {:induction false} FlattenFailsFrom(items: seq<Value>, n: nat)
    requires n <= |items| && Flatten(items[..n]).Err?
    ensures Flatten(items) == Flatten(items[..n])
    decreases |items| - n
  {
    if n < |items| {
      assert items[..n + 1][..n] == items[..n];
      FlattenFailsFrom(items, n + 1);
    } else {
      assert items[..n] == items;
    }
  }

  /** Lines 127-138: the loop over a list whose first element is a dict. Each dict item is
      rewritten in place, field by field, so an exception leaves the fields and items before it
      rewritten; the JSON of the rewritten list is returned. */
  method FormatDictList(items: array<Value>) returns (r: Result<string>)
    requires items.Length > 0 && items[0].Dict?
    modifies items
    ensures r == Format(List(old(items[..])))
    ensures items[..] == SubstItems(List(old(items[..])), old(items[..]), 0).out
  {
    ghost var whole := List(items[..]);
    var index := 0;
    while index < items.Length
      invariant 0 <= index <= items.Length == |whole.items|
      invariant SubstItems(whole, items[..], index) == SubstItems(whole, whole.items, 0)
      invariant forall j :: index <= j < items.Length ==> items[j] == whole.items[j]
    {
      var item := items[index];
      if item.Dict? {
        ghost var before := items[..];
        var err := RewriteFields(items, index);
        assert items[..] == before[index := Dict(SubstFields(item, item.entries, 0).out)];
        if err.Some? {
          return Err(err.value);
        }
      }
      index := index + 1;
    }
    assert items[..] == SubstItems(whole, items[..], index).out;
    r := Ok(Dumps(List(items[..]), Pretty));
  }

  /** Lines 134-136 for the dict at `items[index]`: each present verbose field is replaced, in FIELDS
      order, by its rendering, until one fails. */
  method RewriteFields(items: array<Value>, index: nat) returns (err: Option<PyError>)
    requires index < items.Length && items[index].Dict?
    modifies items
    ensures items[..] == old(items[..])[index := Dict(SubstFields(old(items[index]), old(items[index]).entries, 0).out)]
    ensures err == SubstFields(old(items[index]), old(items[index]).entries, 0).err
  {
    FieldsDistinct();
    ghost var item := items[index];
    ghost var before := items[..];
    var f := 0;
    while f < |FIELDS|
      invariant 0 <= f <= |FIELDS|
      invariant items[index].Dict? && Keys(items[index].entries) == Keys(item.entries)
      invariant forall g :: f <= g < |FIELDS| ==> Get(items[index].entries, FIELDS[g]) == Get(item.entries, FIELDS[g])
      invariant SubstFields(item, items[index].entries, f) == SubstFields(item, item.entries, 0)
      invariant items[..] == before[index := items[index]]
    {
      var field := FIELDS[f];
      var copy := items[index];
      FindSameKeys(copy.entries, item.entries, field);
      if HasKey(copy.entries, field) {
        var text := Format(Get(copy.entries, field).value);
        if text.Err? {
          return Some(text.error);
        }
        items[index] := Dict(SetKey(copy.entries, field, Str(text.value)));
      }
      f := f + 1;
    }
    err := None;
  }

  /** No verbose field is listed twice. */
  lemma FieldsDistinct()
    ensures forall a, b :: 0 <= a < b < |FIELDS| ==> FIELDS[a] != FIELDS[b]
  {
  }

  // ----- what the list-of-strings branch promises -----

  lemma {:induction false} StrsAppend(a: seq<string>, b: seq<string>)
    ensures Strs(a + b) == Strs(a) + Strs(b)
  {
  }

  /** Strings alone flatten into the newline-separated pieces of each, in order. */
  lemma {:induction false} FlattenOfStrings(items: seq<Value>)
    requires AllStrings(items)
    ensures Flatten(items) == Ok(Strs(SplitAll(Texts(items))))
  {
    if |items| > 0 {
      var n := |items|;
      var p := items[..n - 1];
      FlattenOfStrings(p);
      assert Texts(items)[..n - 1] == Texts(p);
      var s := items[n - 1].s;
      assert Texts(items)[n - 1] == s;
      if '\n' !in s {
        SplitLinesOfLine(s);
        assert Strs([s]) == [items[n - 1]];
      }
      StrsAppend(SplitAll(Texts(p)), SplitLines(s));
    }
  }

  /** Every line is free of newlines, and the lines joined on newlines are the strings joined on
      newlines. */
  lemma {:induction false} SplitAllLines(ss: seq<string>)
    ensures forall j :: 0 <= j < |SplitAll(ss)| ==> '\n' !in SplitAll(ss)[j]
    ensures |ss| > 0 ==> |SplitAll(ss)| > 0 && Join(SplitAll(ss), "\n") == Join(ss, "\n")
  {
    if |ss| > 0 {
      var n := |ss|;
      var p := ss[..n - 1];
      SplitAllLines(p);
      SplitLinesHasNoNewline(ss[n - 1]);
      JoinSplitLines(ss[n - 1]);
      if n > 1 {
        JoinAppend(SplitAll(p), SplitLines(ss[n - 1]), "\n");
        JoinAppend(p, [ss[n - 1]], "\n");
        assert p + [ss[n - 1]] == ss;
      } else {
        assert SplitAll(ss) == SplitLines(ss[0]);
      }
    }
  }

  lemma TextsOfStrs(ss: seq<string>)
    ensures Texts(Strs(ss)) == ss
  {
  }

  /** Lines 141-156 for a list of strings: the strings are cut at their newlines; if the pieces hold
      more than INLINE_LIMIT characters together they are written one per line after a leading newline,
      otherwise on one line separated by spaces. The block form gives the strings back: it is their
      newline-join, and it splits into exactly the pieces. */
  lemma StringListRendering(items: seq<Value>)
    requires |items| > 0 && AllStrings(items)
    ensures var lines := SplitAll(Texts(items));
      Format(List(items)) == Ok(if |Concat(lines)| > INLINE_LIMIT then "\n" + Join(lines, "\n") else Join(lines, " "))
    ensures var lines := SplitAll(Texts(items));
      |Concat(lines)| > INLINE_LIMIT ==>
        Format(List(items)).value[1..] == Join(Texts(items), "\n") && SplitLines(Format(List(items)).value[1..]) == lines
  {
    var lines := SplitAll(Texts(items));
    FlattenOfStrings(items);
    TextsOfStrs(lines);
    SplitAllLines(Texts(items));
    SplitLinesOfJoin(lines);
    assert ("\n" + Join(lines, "\n"))[1..] == Join(lines, "\n");
  }

  /** Two newline-free strings: more than INLINE_LIMIT characters together give a two-line block
      after a leading newline, otherwise the two strings separated by a space; `["x", "y"]` gives
      "x y". */
  lemma TwoStrings(a: string, b: string)
    requires '\n' !in a && '\n' !in b
    ensures |a| + |b| > INLINE_LIMIT ==> Format(List([Str(a), Str(b)])) == Ok("\n" + a + "\n" + b)
    ensures |a| + |b| <= INLINE_LIMIT ==> Format(List([Str(a), Str(b)])) == Ok(a + " " + b)
    ensures Format(List([Str("x"), Str("y")])) == Ok("x y")
  {
    TwoStringLines(a, b);
    TwoStringLines("x", "y");
    assert "x" + " " + "y" == "x y";
  }

  lemma TwoStringLines(a: string, b: string)
    requires '\n' !in a && '\n' !in b
    ensures var lines := SplitAll(Texts([Str(a), Str(b)]));
      lines == [a, b] && Concat(lines) == a + b && Join(lines, "\n") == a + "\n" + b && Join(lines, " ") == a + " " + b
    ensures Format(List([Str(a), Str(b)])) == Ok(if |a| + |b| > INLINE_LIMIT then "\n" + a + "\n" + b else a + " " + b)
  {
    var items := [Str(a), Str(b)];
    TwoStringPieces(a, b);
    StringListRendering(items);
    assert "\n" + Join([a, b], "\n") == "\n" + a + "\n" + b;
  }

  lemma TwoStringPieces(a: string, b: string)
    requires '\n' !in a && '\n' !in b
    ensures var lines := SplitAll(Texts([Str(a), Str(b)]));
      lines == [a, b] && Concat(lines) == a + b && Join(lines, "\n") == a + "\n" + b && Join(lines, " ") == a + " " + b
  {
    SplitLinesOfLine(a);
    SplitLinesOfLine(b);
    assert Texts([Str(a), Str(b)]) == [a, b];
    assert SplitAll([a, b]) == [a, b] by {
      assert [a, b][..1] == [a];
      assert SplitAll([a]) == [a] by { assert [a][..0] == []; }
    }
    assert [a, b][1..] == [b];
    assert Concat([a, b]) == a + b by {
      assert Concat([b]) == b + Concat([]);
    }
  }

  /** A non-string element survives flattening, so the flattened list is not all strings either. */
  lemma {:induction false} FlattenKeepsNonStrings(items: seq<Value>)
    ensures Flatten(items).Ok? && !AllStrings(items) ==> !AllStrings(Flatten(items).value)
  {
    if |items| > 0 && Flatten(items).Ok? && !AllStrings(items) {
      var n := |items|;
      var acc := Flatten(items[..n - 1]).value;
      var flat := Flatten(items).value;
      assert flat[..|acc|] == acc;
      if items[n - 1].Str? {
        var j :| 0 <= j < n && !items[j].Str?;
        assert items[..n - 1][j] == items[j];
        FlattenKeepsNonStrings(items[..n - 1]);
        var i :| 0 <= i < |acc| && !acc[i].Str?;
        assert flat[i] == acc[i];
      } else {
        assert flat[|acc|] == items[n - 1];
      }
    }
  }

  /** A list whose first element is not a dict renders exactly when all its elements are strings. */
  lemma StringListAcceptsOnlyStrings(items: seq<Value>)
    requires |items| > 0 && !items[0].Dict?
    ensures Format(List(items)).Ok? <==> AllStrings(items)
  {
    if AllStrings(items) {
      StringListRendering(items);
    } else {
      FlattenKeepsNonStrings(items);
    }
  }

  // ----- what the list-of-dicts branch promises -----

  /** Every verbose field present in dict `item` can itself be rendered. */
  ghost predicate FieldsRender(item: Value)
    requires item.Dict?
  {
    forall g :: 0 <= g < |FIELDS| && HasKey(item.entries, FIELDS[g]) ==> Format(Get(item.entries, FIELDS[g]).value).Ok?
  }

  /** `after` is dict `before` with each present verbose field's value replaced by the string that
      `_format_output` gives for it: same keys in the same order, other keys untouched. */
  ghost predicate Rewritten(before: seq<(string, Value)>, after: seq<(string, Value)>)
  {
    && Keys(after) == Keys(before)
    && (forall g :: 0 <= g < |FIELDS| && HasKey(before, FIELDS[g]) ==>
          Get(after, FIELDS[g]).Some? && Get(after, FIELDS[g]).value.Str? &&
          Format(Get(before, FIELDS[g]).value) == Ok(Get(after, FIELDS[g]).value.s))
    && (forall key :: key !in FIELDS ==> Get(after, key) == Get(before, key))
  }

  /** What an element of the list becomes: dicts are rewritten, everything else is left alone. */
  ghost predicate Processed(before: Value, after: Value)
  {
    if before.Dict? then after.Dict? && Rewritten(before.entries, after.entries) else after == before
  }

  lemma SubstFieldsFacts(item: Value, acc: seq<(string, Value)>, k: nat)
    requires item.Dict? && k <= |FIELDS| && Keys(acc) == Keys(item.entries)
    ensures Keys(SubstFields(item, acc, k).out) == Keys(acc)
    ensures SubstFields(item, acc, k).err.None? <==>
      forall g :: k <= g < |FIELDS| && HasKey(item.entries, FIELDS[g]) ==> Format(Get(item.entries, FIELDS[g]).value).Ok?
    ensures SubstFields(item, acc, k).err.None? ==>
      forall g :: k <= g < |FIELDS| && HasKey(item.entries, FIELDS[g]) ==>
        Get(SubstFields(item, acc, k).out, FIELDS[g]) == Some(Str(Format(Get(item.entries, FIELDS[g]).value).value))
    ensures forall key :: key !in FIELDS[k..] ==> Get(SubstFields(item, acc, k).out, key) == Get(acc, key)
  {
    SubstFieldsKeepsKeys(item, acc, k);
    forall key | key !in FIELDS[k..]
      ensures Get(SubstFields(item, acc, k).out, key) == Get(acc, key)
    {
      SubstFieldsLeaves(item, acc, k, key);
    }
    SubstFieldsFails(item, acc, k);
    SubstFieldsRenders(item, acc, k);
  }

  /** The field loop keeps the keys of the dict. */
  lemma {:induction false} SubstFieldsKeepsKeys(item: Value, acc: seq<(string, Value)>, k: nat)
    requires item.Dict? && k <= |FIELDS| && Keys(acc) == Keys(item.entries)
    ensures Keys(SubstFields(item, acc, k).out) == Keys(acc)
    decreases |FIELDS| - k
  {
    if k < |FIELDS| {
      var f := FIELDS[k];
      FindSameKeys(acc, item.entries, f);
      var j := Find(item.entries, f);
      if j < 0 {
        SubstFieldsKeepsKeys(item, acc, k + 1);
      } else if Format(item.entries[j].1).Ok? {
        SubstFieldsKeepsKeys(item, SetKey(acc, f, Str(Format(item.entries[j].1).value)), k + 1);
      }
    }
  }

  /** The field loop touches only the fields it has still to visit. */
  lemma {:induction false} SubstFieldsLeaves(item: Value, acc: seq<(string, Value)>, k: nat, key: string)
    requires item.Dict? && k <= |FIELDS| && key !in FIELDS[k..]
    ensures Get(SubstFields(item, acc, k).out, key) == Get(acc, key)
    decreases |FIELDS| - k
  {
    if k < |FIELDS| {
      var f := FIELDS[k];
      assert key != f && key !in FIELDS[k + 1..];
      var j := Find(item.entries, f);
      if j < 0 {
        SubstFieldsLeaves(item, acc, k + 1, key);
      } else if Format(item.entries[j].1).Ok? {
        SubstFieldsLeaves(item, SetKey(acc, f, Str(Format(item.entries[j].1).value)), k + 1, key);
      }
    }
  }

  /** The field loop stops exactly when a present field cannot be rendered. */
  lemma {:induction false} SubstFieldsFails(item: Value, acc: seq<(string, Value)>, k: nat)
    requires item.Dict? && k <= |FIELDS|
    ensures SubstFields(item, acc, k).err.None? <==>
      forall g :: k <= g < |FIELDS| && HasKey(item.entries, FIELDS[g]) ==> Format(Get(item.entries, FIELDS[g]).value).Ok?
    decreases |FIELDS| - k
  {
    if k < |FIELDS| {
      var j := Find(item.entries, FIELDS[k]);
      if j < 0 {
        SubstFieldsFails(item, acc, k + 1);
      } else if Format(item.entries[j].1).Ok? {
        SubstFieldsFails(item, SetKey(acc, FIELDS[k], Str(Format(item.entries[j].1).value)), k + 1);
      }
    }
  }

  /** Without a failure, each present field ends as the string its old value renders to. */
  lemma {:induction false} SubstFieldsRenders(item: Value, acc: seq<(string, Value)>, k: nat)
    requires item.Dict? && k <= |FIELDS| && Keys(acc) == Keys(item.entries)
    ensures SubstFields(item, acc, k).err.None? ==>
      forall g :: k <= g < |FIELDS| && HasKey(item.entries, FIELDS[g]) ==>
        Format(Get(item.entries, FIELDS[g]).value).Ok? &&
        Get(SubstFields(item, acc, k).out, FIELDS[g]) == Some(Str(Format(Get(item.entries, FIELDS[g]).value).value))
    decreases |FIELDS| - k
  {
    if k < |FIELDS| {
      FieldsDistinct();
      var f := FIELDS[k];
      FindSameKeys(acc, item.entries, f);
      var j := Find(item.entries, f);
      if j < 0 {
        SubstFieldsRenders(item, acc, k + 1);
      } else if Format(item.entries[j].1).Ok? {
        var acc' := SetKey(acc, f, Str(Format(item.entries[j].1).value));
        SubstFieldsRenders(item, acc', k + 1);
        assert f !in FIELDS[k + 1..];
        SubstFieldsLeaves(item, acc', k + 1, f);
      }
    }
  }

  lemma SubstItemsFacts(whole: Value, acc: seq<Value>, i: nat)
    requires whole.List? && |acc| == |whole.items| && i <= |acc|
    requires forall j :: i <= j < |acc| ==> acc[j] == whole.items[j]
    ensures forall j :: 0 <= j < i ==> SubstItems(whole, acc, i).out[j] == acc[j]
    ensures SubstItems(whole, acc, i).err.None? <==>
      forall j :: i <= j < |acc| && whole.items[j].Dict? ==> FieldsRender(whole.items[j])
    ensures SubstItems(whole, acc, i).err.None? ==>
      forall j :: i <= j < |acc| ==> Processed(whole.items[j], SubstItems(whole, acc, i).out[j])
  {
    SubstItemsKeepsPrefix(whole, acc, i);
    SubstItemsFails(whole, acc, i);
    SubstItemsProcesses(whole, acc, i);
  }

  /** The pass over the list leaves the elements before `i` alone. */
  lemma {:induction false} SubstItemsKeepsPrefix(whole: Value, acc: seq<Value>, i: nat)
    requires whole.List? && |acc| == |whole.items| && i <= |acc|
    ensures forall j :: 0 <= j < i ==> SubstItems(whole, acc, i).out[j] == acc[j]
    decreases |acc| - i
  {
    if i < |acc| {
      var item := whole.items[i];
      if !item.Dict? {
        SubstItemsKeepsPrefix(whole, acc, i + 1);
      } else {
        var s := SubstFields(item, item.entries, 0);
        if s.err.None? {
          SubstItemsKeepsPrefix(whole, acc[i := Dict(s.out)], i + 1);
        }
      }
    }
  }

  /** The pass over the list stops exactly when some dict element has a field that cannot be rendered. */
  lemma {:induction false} SubstItemsFails(whole: Value, acc: seq<Value>, i: nat)
    requires whole.List? && |acc| == |whole.items| && i <= |acc|
    ensures SubstItems(whole, acc, i).err.None? <==>
      forall j :: i <= j < |acc| && whole.items[j].Dict? ==> FieldsRender(whole.items[j])
    decreases |acc| - i
  {
    if i < |acc| {
      var item := whole.items[i];
      if !item.Dict? {
        SubstItemsFails(whole, acc, i + 1);
      } else {
        SubstFieldsFails(item, item.entries, 0);
        assert FIELDS[0..] == FIELDS;
        var s := SubstFields(item, item.entries, 0);
        if s.err.None? {
          SubstItemsFails(whole, acc[i := Dict(s.out)], i + 1);
        }
      }
    }
  }

  /** Without a failure, every element from `i` on ends processed. */
  lemma {:induction false} SubstItemsProcesses(whole: Value, acc: seq<Value>, i: nat)
    requires whole.List? && |acc| == |whole.items| && i <= |acc|
    requires forall j :: i <= j < |acc| ==> acc[j] == whole.items[j]
    ensures SubstItems(whole, acc, i).err.None? ==>
      forall j :: i <= j < |acc| ==> Processed(whole.items[j], SubstItems(whole, acc, i).out[j])
    decreases |acc| - i
  {
    if i < |acc| {
      var item := whole.items[i];
      if !item.Dict? {
        SubstItemsProcesses(whole, acc, i + 1);
        SubstItemsKeepsPrefix(whole, acc, i + 1);
      } else {
        var s := SubstFields(item, item.entries, 0);
        if s.err.None? {
          SubstFieldsFacts(item, item.entries, 0);
          assert FIELDS[0..] == FIELDS;
          assert Rewritten(item.entries, s.out);
          SubstItemsProcesses(whole, acc[i := Dict(s.out)], i + 1);
          SubstItemsKeepsPrefix(whole, acc[i := Dict(s.out)], i + 1);
        }
      }
    }
  }

  /** Lines 127-138 and 158-159: for a list whose first element is a dict, the call succeeds exactly
      when every verbose field of every dict element can be rendered, and then gives the sorted JSON of
      the list in which each dict element has those fields replaced by their renderings and every
      other element is unchanged. */
  lemma DictListRendering(items: seq<Value>)
    requires |items| > 0 && items[0].Dict?
    ensures Format(List(items)).Ok? <==> forall j :: 0 <= j < |items| && items[j].Dict? ==> FieldsRender(items[j])
    ensures var out := SubstItems(List(items), items, 0).out;
      Format(List(items)).Ok? ==>
        Format(List(items)).value == Dumps(List(out), Pretty) &&
        |out| == |items| && forall j :: 0 <= j < |items| ==> Processed(items[j], out[j])
  {
    SubstItemsFacts(List(items), items, 0);
  }

  /** Re-rendering a rewritten dict leaves it as it is: its verbose fields are strings now, and a
      string renders as itself. So a dict object that occurs twice in the list, and is visited a second
      time after its rewrite, ends the same as a copy rewritten once. */
  lemma RewriteIsIdempotent(item: Value)
    requires item.Dict? && FieldsRender(item)
    ensures var out := SubstFields(item, item.entries, 0).out;
      SubstFields(Dict(out), out, 0) == Subst(out, None)
  {
    SubstFieldsFacts(item, item.entries, 0);
    var out := SubstFields(item, item.entries, 0).out;
    FindSameKeys(out, item.entries, "");
    forall g | 0 <= g < |FIELDS| && HasKey(out, FIELDS[g])
      ensures Get(out, FIELDS[g]).value.Str?
    {
      FindSameKeys(out, item.entries, FIELDS[g]);
    }
    StableFrom(out, 0);
  }

  lemma {:induction false} StableFrom(d: seq<(string, Value)>, k: nat)
    requires k <= |FIELDS|
    requires forall g :: k <= g < |FIELDS| && HasKey(d, FIELDS[g]) ==> Get(d, FIELDS[g]).value.Str?
    ensures SubstFields(Dict(d), d, k) == Subst(d, None)
    decreases |FIELDS| - k
  {
    if k < |FIELDS| {
      var j := Find(d, FIELDS[k]);
      if j >= 0 {
        assert d[j] == (FIELDS[k], Str(d[j].1.s));
        assert SetKey(d, FIELDS[k], Str(d[j].1.s)) == d;
      }
      StableFrom(d, k + 1);
    }
  }

  // ----- the other branches -----

  /** Lines 123-124: a dict is written as sorted JSON as it is (its verbose fields are not rewritten),
      so two dicts with the same entries render alike whatever order their keys were inserted in. */
  lemma DictRendering(e1: seq<(string, Value)>, e2: seq<(string, Value)>)
    requires UniqueKeys(e1) && UniqueKeys(e2)
    requires forall p :: p in e1 <==> p in e2
    ensures Format(Dict(e1)) == Ok(Dumps(Dict(e1), Pretty))
    ensures Format(Dict(e1)) == Format(Dict(e2))
  {
    PrettyIgnoresInsertionOrder(e1, e2, 0);
  }

  /** Lines 127 and 159: an empty list fails on its first element; a string is written as it is;
      an integer as decimal text that reads back as the same integer. */
  lemma ScalarRendering(v: Value)
    ensures Format(List([])) == Err(IndexError)
    ensures v.Str? ==> Format(v) == Ok(v.s)
    ensures v.Int? ==> Format(v).Ok? && |Format(v).value| >= 1
    ensures v.Int? ==> (Format(v).value[0] == '-' || '0' <= Format(v).value[0] <= '9')
    ensures v.Int? ==> forall k :: 1 <= k < |Format(v).value| ==> '0' <= Format(v).value[k] <= '9'
    ensures v.Int? ==> ParseInt(Format(v).value) == v.i
  {
    if v.Int? {
      IntTextRoundTrip(v.i);
    }
  }
}
