/**
  Arguments of scripted steps: JSON values whose strings may refer to the output of an earlier step
  with a marker such as `${step:2.output}`, and the substitution of those markers.
 */
module StepReferences {
  import opened Text

  datatype Value =
    | Null
    | Bool(b: bool)
    | Int(n: int)
    | Real(x: real)
    | Str(s: string)
    | Arr(items: seq<Value>)
    | Obj(fields: seq<Field>)

  /** One entry of a dictionary; dictionaries keep their insertion order. */
  datatype Field = Field(key: string, value: Value)

  type Args = seq<Field>

  function Lookup(args: Args, key: string): (r: Option<Value>)
    ensures r.Some? <==> exists f :: f in args && f.key == key
    ensures r.Some? ==> Field(key, r.value) in args
  {
    if args == [] then None
    else if args[0].key == key then
      assert args[0] == Field(key, args[0].value);
      Some(args[0].value)
    else Lookup(args[1..], key)
  }

  /** Either the substituted value, or the step that has no output to refer to. */
  datatype Resolved<+T> = Ok(value: T) | NoOutput(step: nat)
  {
    predicate IsFailure() { NoOutput? }

    function PropagateFailure<U>(): Resolved<U>
      requires NoOutput?
    {
      NoOutput(step)
    }

    function Extract(): T
      requires Ok?
    {
      value
    }
  }

  /******* Markers *******/

  const OPENING := "${step:"

  const CLOSING := ".output}"

  /** A marker found at the start of a text: the step it names and how many characters it takes. */
  datatype Marker = Marker(step: nat, length: nat)

  function MarkerAtStart(d: Digits, s: string): (m: Option<Marker>)
    ensures m.Some? ==> |OPENING| + |CLOSING| < m.value.length <= |s|
  {
    if OPENING <= s then
      var digits := DigitCount(d, s[|OPENING|..]);
      if digits > 0 && CLOSING <= s[|OPENING| + digits..] then
        Some(Marker(ParseNat(d, s[|OPENING|..][..digits]), |OPENING| + digits + |CLOSING|))
      else None
    else None
  }

  /** `s` is one marker, as a whole, naming `step`. */
  predicate IsMarker(d: Digits, s: string, step: nat) {
    MarkerAtStart(d, s) == Some(Marker(step, |s|))
  }

  predicate HasMarkerAt(d: Digits, s: string, i: nat) {
    i <= |s| && MarkerAtStart(d, s[i..]).Some?
  }

  predicate Missing(step: nat, outputs: seq<Option<string>>) {
    step >= |outputs| || outputs[step].None?
  }

  function OutputOf(step: nat, outputs: seq<Option<string>>): Resolved<string> {
    if Missing(step, outputs) then NoOutput(step) else Ok(outputs[step].value)
  }

  /** Left-to-right composition: the first failure wins, otherwise the texts are joined. */
  function Join(a: Resolved<string>, b: Resolved<string>): Resolved<string> {
    if a.NoOutput? then a else if b.NoOutput? then b else Ok(a.value + b.value)
  }

  /** One pass over the text from left to right, replacing each marker by the output it names. */
  function Substitute(d: Digits, s: string, outputs: seq<Option<string>>): Resolved<string> {
    if s == "" then Ok("")
    else
      match MarkerAtStart(d, s)
      case Some(m) => Join(OutputOf(m.step, outputs), Substitute(d, s[m.length..], outputs))
      case None => Join(Ok(s[..1]), Substitute(d, s[1..], outputs))
  }

  /******* How markers sit in a longer text *******/

  lemma {:induction false} DigitsUnchanged(d: Digits, u: string, w: string)
    requires DigitCount(d, u) < |u|
    ensures DigitCount(d, u + w) == DigitCount(d, u)
  {
    if u != "" && d.isDigit(u[0]) {
      assert (u + w)[1..] == u[1..] + w;
      DigitsUnchanged(d, u[1..], w);
    }
  }

  /** A marker stays a marker when text is appended. */
  lemma MarkerUnchanged(d: Digits, u: string, w: string)
    requires MarkerAtStart(d, u).Some?
    ensures MarkerAtStart(d, u + w) == MarkerAtStart(d, u)
  {
    var o := |OPENING|;
    var digits := DigitCount(d, u[o..]);
    assert (u + w)[o..] == u[o..] + w;
    DigitsUnchanged(d, u[o..], w);
    assert (u + w)[o..][..digits] == u[o..][..digits];
    assert (u + w)[o + digits..] == u[o + digits..] + w;
  }

  /** Only the first character of a marker is a dollar sign, so markers cannot overlap. */
  lemma NoDollarInside(d: Digits, s: string, k: nat)
    requires MarkerAtStart(d, s).Some? && 0 < k < MarkerAtStart(d, s).value.length
    ensures s[k] != '$'
  {
    var o := |OPENING|;
    var digits := DigitCount(d, s[o..]);
    if k < o {
      assert s[k] == OPENING[k];
    } else if k < o + digits {
      assert s[k] == s[o..][..digits][k - o];
    } else {
      assert s[k] == s[o + digits..][k - o - digits] == CLOSING[k - o - digits];
    }
  }

  lemma {:induction false} DigitsWithin(d: Digits, u: string, w: string, n: nat, s: string)
    requires s == u + w && DigitCount(d, s) == n < |u|
    ensures DigitCount(d, u) == n
  {
    if n == 0 {
    } else {
      DigitsWithin(d, u[1..], w, n - 1, s[1..]);
    }
  }

  lemma MarkerIsLocal(d: Digits, u: string, w: string)
    requires MarkerAtStart(d, u + w).Some? && MarkerAtStart(d, u + w).value.length <= |u|
    ensures MarkerAtStart(d, u) == MarkerAtStart(d, u + w)
  {
    var s, o := u + w, |OPENING|;
    var digits := DigitCount(d, s[o..]);
    assert s[..o] == u[..o];
    assert u[..o] == OPENING;
    DigitsWithin(d, u[o..], w, digits, s[o..]);
    assert s[o..][..digits] == u[o..][..digits];
    assert u[o + digits..][..|CLOSING|] == s[o + digits..][..|CLOSING|] == CLOSING;
  }

  /** Text that begins with a dollar sign cannot complete a marker begun before it. */
  lemma MarkerEndsBefore(d: Digits, u: string, w: string)
    requires u != "" && (w == "" || w[0] == '$')
    ensures MarkerAtStart(d, u + w) == MarkerAtStart(d, u)
  {
    if MarkerAtStart(d, u).Some? {
      MarkerUnchanged(d, u, w);
    } else if MarkerAtStart(d, u + w).Some? {
      var length := MarkerAtStart(d, u + w).value.length;
      if length > |u| {
        assert (u + w)[|u|] == w[0];
        NoDollarInside(d, u + w, |u|);
      } else {
        MarkerIsLocal(d, u, w);
      }
    }
  }

  /******* What substitution does *******/

  lemma JoinAssociative(a: Resolved<string>, b: Resolved<string>, c: Resolved<string>)
    ensures Join(Join(a, b), c) == Join(a, Join(b, c))
  {
    if a.Ok? && b.Ok? && c.Ok? {
      assert (a.value + b.value) + c.value == a.value + (b.value + c.value);
    }
  }

  lemma JoinUnit(a: Resolved<string>)
    ensures Join(Ok(""), a) == a && Join(a, Ok("")) == a
  {
    if a.Ok? {
      assert "" + a.value == a.value == a.value + "";
    }
  }

  /** Substitution works separately on the two sides of any dollar sign. */
  lemma {:induction false} SplitAtDollar(d: Digits, u: string, w: string, outputs: seq<Option<string>>)
    requires w == "" || w[0] == '$'
    ensures Substitute(d, u + w, outputs) == Join(Substitute(d, u, outputs), Substitute(d, w, outputs))
    decreases |u|
  {
    hide MarkerAtStart, OutputOf;
    if u == "" {
      assert u + w == w;
      JoinUnit(Substitute(d, w, outputs));
    } else {
      MarkerEndsBefore(d, u, w);
      var n := if MarkerAtStart(d, u).Some? then MarkerAtStart(d, u).value.length else 1;
      var head := if MarkerAtStart(d, u).Some? then OutputOf(MarkerAtStart(d, u).value.step, outputs) else Ok(u[..1]);
      assert (u + w)[n..] == u[n..] + w;
      assert (u + w)[..1] == u[..1];
      SplitAtDollar(d, u[n..], w, outputs);
      JoinAssociative(head, Substitute(d, u[n..], outputs), Substitute(d, w, outputs));
    }
  }

  /**
    The substitution law: a marker anywhere in a text is replaced by the output it names, taken
    verbatim (an output that itself looks like a marker is not expanded again), and the text on both
    sides is substituted on its own.
   */
  lemma SubstitutionLaw(
    d: Digits, before: string, marker: string, step: nat, after: string, outputs: seq<Option<string>>)
    requires IsMarker(d, marker, step)
    ensures Substitute(d, before + marker + after, outputs) ==
            Join(Substitute(d, before, outputs), Join(OutputOf(step, outputs), Substitute(d, after, outputs)))
  {
    assert before + marker + after == before + (marker + after);
    assert marker[0] == OPENING[0];
    MarkerUnchanged(d, marker, after);
    assert (marker + after)[|marker|..] == after;
    SplitAtDollar(d, before, marker + after, outputs);
  }

  /** A text without markers is left alone. */
  lemma {:induction false} NoMarkerNoChange(d: Digits, s: string, outputs: seq<Option<string>>)
    requires forall i :: 0 <= i <= |s| ==> !HasMarkerAt(d, s, i)
    ensures Substitute(d, s, outputs) == Ok(s)
  {
    if s == "" {
    } else {
      assert s[0..] == s;
      assert !HasMarkerAt(d, s, 0);
      forall i | 0 <= i <= |s[1..]| ensures !HasMarkerAt(d, s[1..], i) {
        assert s[1..][i..] == s[i + 1..];
        assert !HasMarkerAt(d, s, i + 1);
      }
      NoMarkerNoChange(d, s[1..], outputs);
      assert s[..1] + s[1..] == s;
    }
  }

  /** Position `i` of `s` holds a marker whose step has no output. */
  predicate MissingAt(d: Digits, s: string, i: nat, outputs: seq<Option<string>>) {
    HasMarkerAt(d, s, i) && Missing(MarkerAtStart(d, s[i..]).value.step, outputs)
  }

  /** One step of the pass: it fails at a marker of a missing output, and otherwise as the rest does. */
  lemma SubstituteStep(d: Digits, s: string, outputs: seq<Option<string>>)
    requires s != ""
    ensures var head := MarkerAtStart(d, s);
            var n := if head.Some? then head.value.length else 1;
            if head.Some? && Missing(head.value.step, outputs) then
              Substitute(d, s, outputs) == NoOutput(head.value.step)
            else
              && (Substitute(d, s, outputs).Ok? <==> Substitute(d, s[n..], outputs).Ok?)
              && (Substitute(d, s, outputs).NoOutput? ==> Substitute(d, s, outputs) == Substitute(d, s[n..], outputs))
  {
    hide MarkerAtStart;
  }

  lemma EmptyText(d: Digits, outputs: seq<Option<string>>)
    ensures Substitute(d, "", outputs) == Ok("") && !MissingAt(d, "", 0, outputs)
  {
  }

  lemma NothingMissingBefore(d: Digits, s: string, n: nat, outputs: seq<Option<string>>)
    requires s != "" && !MissingAt(d, s, 0, outputs)
    requires n == if MarkerAtStart(d, s).Some? then MarkerAtStart(d, s).value.length else 1
    ensures forall j :: 0 <= j < n ==> !MissingAt(d, s, j, outputs)
  {
    forall j | 0 < j < n ensures !MissingAt(d, s, j, outputs) {
      NoDollarInside(d, s, j);
      assert s[j..][0] == s[j];
    }
  }

  /** The position of the leftmost marker of a missing output, or the length of the text. */
  lemma {:induction false} FirstMissing(d: Digits, s: string, outputs: seq<Option<string>>) returns (i: nat)
    ensures i <= |s| && forall j :: 0 <= j < i ==> !MissingAt(d, s, j, outputs)
    ensures if Substitute(d, s, outputs).Ok? then i == |s| && !MissingAt(d, s, i, outputs)
            else MissingAt(d, s, i, outputs) && MarkerAtStart(d, s[i..]).value.step == Substitute(d, s, outputs).step
    decreases |s|
  {
    hide MarkerAtStart, Substitute;
    assert s[0..] == s;
    if s == "" {
      EmptyText(d, outputs);
      i := 0;
    } else if MissingAt(d, s, 0, outputs) {
      SubstituteStep(d, s, outputs);
      i := 0;
    } else {
      SubstituteStep(d, s, outputs);
      var n := if MarkerAtStart(d, s).Some? then MarkerAtStart(d, s).value.length else 1;
      var rest := s[n..];
      var k := FirstMissing(d, rest, outputs);
      i := n + k;
      assert rest[k..] == s[i..];
      NothingMissingBefore(d, s, n, outputs);
      forall j | 0 <= j < i ensures !MissingAt(d, s, j, outputs) {
        if j >= n {
          assert rest[j - n..] == s[j..];
          assert !MissingAt(d, rest, j - n, outputs);
        }
      }
    }
  }

  /** Substitution fails exactly when some marker names a missing output, and then it reports the
      step named by the leftmost such marker. */
  lemma FailsIffMissing(d: Digits, s: string, outputs: seq<Option<string>>)
    ensures Substitute(d, s, outputs).NoOutput? <==> exists i :: 0 <= i <= |s| && MissingAt(d, s, i, outputs)
    ensures Substitute(d, s, outputs).NoOutput? ==>
              exists i :: 0 <= i <= |s| && MissingAt(d, s, i, outputs)
                && MarkerAtStart(d, s[i..]).value.step == Substitute(d, s, outputs).step
                && forall j :: 0 <= j < i ==> !MissingAt(d, s, j, outputs)
  {
    var i := FirstMissing(d, s, outputs);
  }

  /** The marker a script author writes for a step. */
  function PrintMarker(step: nat): string {
    OPENING + NatToString(step) + CLOSING
  }

  lemma PrintedMarkerIsMarker(d: Digits, step: nat)
    ensures IsMarker(d, PrintMarker(step), step)
  {
    var s := PrintMarker(step);
    var digits := NatToString(step);
    assert s[|OPENING|..] == digits + CLOSING;
    DigitsThenOther(d, digits, CLOSING);
    assert s[|OPENING|..][..|digits|] == digits;
    assert s[|OPENING| + |digits|..] == CLOSING;
    ParsePrinted(d, step);
  }

  /** What the author of a script writes for the output of a step becomes that output. */
  lemma MarkerBecomesOutput(d: Digits, step: nat, outputs: seq<Option<string>>)
    ensures var text := "${step:" + NatToString(step) + ".output}";
            Substitute(d, text, outputs) ==
            if step < |outputs| && outputs[step] != None then Ok(outputs[step].value) else NoOutput(step)
  {
    hide MarkerAtStart, NatToString;
    PrintedMarkerIsMarker(d, step);
    var text := PrintMarker(step);
    assert text[|text|..] == "";
    if !Missing(step, outputs) {
      assert outputs[step].value + "" == outputs[step].value;
    }
  }

  /******* Nested values *******/

  function ResolveArgs(d: Digits, fields: Args, outputs: seq<Option<string>>): (r: Resolved<Args>)
    ensures r.Ok? ==> |r.value| == |fields| && forall i :: 0 <= i < |fields| ==> r.value[i].key == fields[i].key
    decreases fields
  {
    if fields == [] then Ok([])
    else
      var first :- ResolveValue(d, fields[0].value, outputs);
      var rest :- ResolveArgs(d, fields[1..], outputs);
      Ok([Field(fields[0].key, first)] + rest)
  }

  function ResolveValue(d: Digits, v: Value, outputs: seq<Option<string>>): Resolved<Value>
    decreases v
  {
    match v
    case Str(s) =>
      var text :- Substitute(d, s, outputs);
      Ok(Str(text))
    case Arr(items) =>
      var resolved :- ResolveItems(d, items, outputs);
      Ok(Arr(resolved))
    case Obj(fields) =>
      var resolved :- ResolveArgs(d, fields, outputs);
      Ok(Obj(resolved))
    case _ => Ok(v)
  }

  function ResolveItems(d: Digits, items: seq<Value>, outputs: seq<Option<string>>): (r: Resolved<seq<Value>>)
    ensures r.Ok? ==> |r.value| == |items|
    decreases items
  {
    if items == [] then Ok([])
    else
      var first :- ResolveValue(d, items[0], outputs);
      var rest :- ResolveItems(d, items[1..], outputs);
      Ok([first] + rest)
  }

  function StringsOfArgs(fields: Args): seq<string>
    decreases fields
  {
    if fields == [] then [] else Strings(fields[0].value) + StringsOfArgs(fields[1..])
  }

  /** The strings inside a value, in the order in which they are met; dictionary keys do not count. */
  function Strings(v: Value): seq<string>
    decreases v
  {
    match v
    case Str(s) => [s]
    case Arr(items) => StringsOfItems(items)
    case Obj(fields) => StringsOfArgs(fields)
    case _ => []
  }

  function StringsOfItems(items: seq<Value>): seq<string>
    decreases items
  {
    if items == [] then [] else Strings(items[0]) + StringsOfItems(items[1..])
  }

  function ShapeOfArgs(fields: Args): Args
    decreases fields
  {
    if fields == [] then [] else [Field(fields[0].key, Shape(fields[0].value))] + ShapeOfArgs(fields[1..])
  }

  /** What a value looks like when the contents of its strings are erased. */
  function Shape(v: Value): Value
    decreases v
  {
    match v
    case Str(s) => Str("")
    case Arr(items) => Arr(ShapeOfItems(items))
    case Obj(fields) => Obj(ShapeOfArgs(fields))
    case _ => v
  }

  function ShapeOfItems(items: seq<Value>): seq<Value>
    decreases items
  {
    if items == [] then [] else [Shape(items[0])] + ShapeOfItems(items[1..])
  }

  /** Substitution in a list of strings, one after the other; the first failure wins. */
  function SubstituteAll(d: Digits, strings: seq<string>, outputs: seq<Option<string>>): (r: Resolved<seq<string>>)
    ensures r.Ok? ==> |r.value| == |strings|
    ensures r.Ok? ==> forall i :: 0 <= i < |strings| ==> Substitute(d, strings[i], outputs) == Ok(r.value[i])
    ensures r.NoOutput? ==> exists s :: s in strings && Substitute(d, s, outputs) == NoOutput(r.step)
  {
    if strings == [] then Ok([])
    else
      var first := Substitute(d, strings[0], outputs);
      var rest := SubstituteAll(d, strings[1..], outputs);
      if first.NoOutput? then
        assert strings[0] in strings;
        NoOutput(first.step)
      else if rest.NoOutput? then rest
      else Ok([first.value] + rest.value)
  }

  /** The failure reported is the failure of the first string that fails. */
  lemma {:induction false} SubstituteAllAppend(d: Digits, a: seq<string>, b: seq<string>, outputs: seq<Option<string>>)
    ensures var left, right := SubstituteAll(d, a, outputs), SubstituteAll(d, b, outputs);
            SubstituteAll(d, a + b, outputs) ==
            if left.NoOutput? then left else if right.NoOutput? then right else Ok(left.value + right.value)
  {
    if a == [] {
      assert a + b == b;
      var right := SubstituteAll(d, b, outputs);
      if right.Ok? { assert [] + right.value == right.value; }
    } else {
      assert (a + b)[1..] == a[1..] + b;
      SubstituteAllAppend(d, a[1..], b, outputs);
      var first, left, right := Substitute(d, a[0], outputs), SubstituteAll(d, a[1..], outputs),
        SubstituteAll(d, b, outputs);
      if first.Ok? && left.Ok? && right.Ok? {
        assert [first.value] + (left.value + right.value) == [first.value] + left.value + right.value;
      }
    }
  }

  /** `r` is what resolving does to a value with these strings and this shape: it fails as the
      substitution in the strings fails, and otherwise changes nothing but the strings. */
  predicate Mirrors<T>(r: Resolved<T>, all: Resolved<seq<string>>, strings: seq<string>, sameShape: bool) {
    if all.NoOutput? then r == NoOutput(all.step) else r.Ok? && strings == all.value && sameShape
  }

  lemma {:induction false} ResolveArgsMirrors(d: Digits, fields: Args, outputs: seq<Option<string>>)
    ensures var r := ResolveArgs(d, fields, outputs);
            Mirrors(r, SubstituteAll(d, StringsOfArgs(fields), outputs),
                    if r.Ok? then StringsOfArgs(r.value) else [], r.Ok? && ShapeOfArgs(r.value) == ShapeOfArgs(fields))
    decreases fields
  {
    if fields == [] {
    } else {
      ResolveValueMirrors(d, fields[0].value, outputs);
      ResolveArgsMirrors(d, fields[1..], outputs);
      SubstituteAllAppend(d, Strings(fields[0].value), StringsOfArgs(fields[1..]), outputs);
    }
  }

  /** Resolving a nested value is resolving its strings one by one, leaving everything else alone. */
  lemma {:induction false} ResolveValueMirrors(d: Digits, v: Value, outputs: seq<Option<string>>)
    ensures var r := ResolveValue(d, v, outputs);
            Mirrors(r, SubstituteAll(d, Strings(v), outputs),
                    if r.Ok? then Strings(r.value) else [], r.Ok? && Shape(r.value) == Shape(v))
    decreases v
  {
    match v
    case Str(s) =>
      assert SubstituteAll(d, [s][1..], outputs) == Ok([]);
    case Arr(items) => ResolveItemsMirrors(d, items, outputs);
    case Obj(fields) => ResolveArgsMirrors(d, fields, outputs);
    case _ =>
  }

  lemma {:induction false} ResolveItemsMirrors(d: Digits, items: seq<Value>, outputs: seq<Option<string>>)
    ensures var r := ResolveItems(d, items, outputs);
            Mirrors(r, SubstituteAll(d, StringsOfItems(items), outputs),
                    if r.Ok? then StringsOfItems(r.value) else [],
                    r.Ok? && ShapeOfItems(r.value) == ShapeOfItems(items))
    decreases items
  {
    if items == [] {
    } else {
      ResolveValueMirrors(d, items[0], outputs);
      ResolveItemsMirrors(d, items[1..], outputs);
      SubstituteAllAppend(d, Strings(items[0]), StringsOfItems(items[1..]), outputs);
    }
  }

  lemma {:induction false} ArgsStringCount(a: Args, b: Args)
    requires ShapeOfArgs(a) == ShapeOfArgs(b)
    ensures |StringsOfArgs(a)| == |StringsOfArgs(b)|
    decreases a
  {
    if a == [] {
    } else {
      assert Shape(a[0].value) == ShapeOfArgs(a)[0].value == ShapeOfArgs(b)[0].value;
      assert ShapeOfArgs(a[1..]) == ShapeOfArgs(a)[1..] == ShapeOfArgs(b)[1..];
      StringCount(a[0].value, b[0].value);
      ArgsStringCount(a[1..], b[1..]);
    }
  }

  lemma {:induction false} StringCount(a: Value, b: Value)
    requires Shape(a) == Shape(b)
    ensures |Strings(a)| == |Strings(b)|
    decreases a
  {
    match a
    case Arr(items) => ItemsStringCount(items, b.items);
    case Obj(fields) => ArgsStringCount(fields, b.fields);
    case _ =>
  }

  lemma {:induction false} ItemsStringCount(a: seq<Value>, b: seq<Value>)
    requires ShapeOfItems(a) == ShapeOfItems(b)
    ensures |StringsOfItems(a)| == |StringsOfItems(b)|
    decreases a
  {
    if a == [] {
    } else {
      assert Shape(a[0]) == ShapeOfItems(a)[0] == ShapeOfItems(b)[0];
      assert ShapeOfItems(a[1..]) == ShapeOfItems(a)[1..] == ShapeOfItems(b)[1..];
      StringCount(a[0], b[0]);
      ItemsStringCount(a[1..], b[1..]);
    }
  }

  /** Equal texts in three parts, the first ones of equal length, agree in the first and in the rest. */
  lemma SplitEqual<T>(a: seq<T>, b: seq<T>, c: seq<T>, a': seq<T>, b': seq<T>, c': seq<T>)
    requires (a + b) + c == (a' + b') + c' && |a| == |a'|
    ensures a == a' && b + c == b' + c'
  {
    var all, all' := (a + b) + c, (a' + b') + c';
    assert a == all[..|a|] && a' == all'[..|a|];
    assert b + c == all[|a|..] && b' + c' == all'[|a|..];
  }

  lemma {:induction false} ArgsDetermined(a: Args, b: Args, x: seq<string>, y: seq<string>)
    requires ShapeOfArgs(a) == ShapeOfArgs(b) && StringsOfArgs(a) + x == StringsOfArgs(b) + y
    requires |x| == |y|
    ensures a == b
    decreases a
  {
    if a == [] {
    } else {
      assert ShapeOfArgs(a)[0] == ShapeOfArgs(b)[0];
      assert ShapeOfArgs(a[1..]) == ShapeOfArgs(a)[1..] == ShapeOfArgs(b)[1..];
      StringCount(a[0].value, b[0].value);
      SplitEqual(Strings(a[0].value), StringsOfArgs(a[1..]), x, Strings(b[0].value), StringsOfArgs(b[1..]), y);
      ShapeAndStringsDetermine(a[0].value, b[0].value);
      ArgsDetermined(a[1..], b[1..], x, y);
      assert a == [a[0]] + a[1..] && b == [b[0]] + b[1..];
    }
  }

  lemma {:induction false} ShapeAndStringsDetermine(a: Value, b: Value)
    requires Shape(a) == Shape(b) && Strings(a) == Strings(b)
    ensures a == b
    decreases a
  {
    match a
    case Str(s) => assert [s] == Strings(b);
    case Arr(items) => ItemsDetermined(items, b.items, [], []);
    case Obj(fields) => ArgsDetermined(fields, b.fields, [], []);
    case _ =>
  }

  lemma {:induction false} ItemsDetermined(a: seq<Value>, b: seq<Value>, x: seq<string>, y: seq<string>)
    requires ShapeOfItems(a) == ShapeOfItems(b) && StringsOfItems(a) + x == StringsOfItems(b) + y
    requires |x| == |y|
    ensures a == b
    decreases a
  {
    if a == [] {
    } else {
      assert Shape(a[0]) == ShapeOfItems(a)[0] == ShapeOfItems(b)[0];
      assert ShapeOfItems(a[1..]) == ShapeOfItems(a)[1..] == ShapeOfItems(b)[1..];
      StringCount(a[0], b[0]);
      SplitEqual(Strings(a[0]), StringsOfItems(a[1..]), x, Strings(b[0]), StringsOfItems(b[1..]), y);
      ShapeAndStringsDetermine(a[0], b[0]);
      ItemsDetermined(a[1..], b[1..], x, y);
      assert a == [a[0]] + a[1..] && b == [b[0]] + b[1..];
    }
  }

  predicate MarkerFree(d: Digits, strings: seq<string>) {
    forall s, i :: s in strings && 0 <= i <= |s| ==> !HasMarkerAt(d, s, i)
  }

  /** Arguments without markers are resolved to themselves, whatever the outputs. */
  lemma MarkerFreeArgsUnchanged(d: Digits, args: Args, outputs: seq<Option<string>>)
    requires MarkerFree(d, StringsOfArgs(args))
    ensures ResolveArgs(d, args, outputs) == Ok(args)
  {
    var strings := StringsOfArgs(args);
    ResolveArgsMirrors(d, args, outputs);
    forall s | s in strings ensures Substitute(d, s, outputs) == Ok(s) {
      NoMarkerNoChange(d, s, outputs);
    }
    var all := SubstituteAll(d, strings, outputs);
    assert all.value == strings;
    ArgsDetermined(ResolveArgs(d, args, outputs).value, args, [], []);
  }

  /** Resolving arguments fails exactly when some string in them holds a marker of a missing output. */
  lemma ResolveArgsFailsIff(d: Digits, args: Args, outputs: seq<Option<string>>)
    ensures ResolveArgs(d, args, outputs).NoOutput? <==>
              exists s, i :: s in StringsOfArgs(args) && 0 <= i <= |s| && MissingAt(d, s, i, outputs)
  {
    ResolveArgsMirrors(d, args, outputs);
    forall s | s in StringsOfArgs(args)
      ensures Substitute(d, s, outputs).NoOutput? <==> exists i :: 0 <= i <= |s| && MissingAt(d, s, i, outputs)
    {
      FailsIffMissing(d, s, outputs);
    }
    var strings, all := StringsOfArgs(args), SubstituteAll(d, StringsOfArgs(args), outputs);
    if all.Ok? {
      forall s | s in strings ensures Substitute(d, s, outputs).Ok? {
        var i :| 0 <= i < |strings| && strings[i] == s;
      }
    }
  }
}
