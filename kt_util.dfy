/**
 * Two helpers of `KTUtil` in assets/plugins/global/plugins.bundle.js:
 * `numberFormat` on integers, and `deepMerge` with the `isObject` test it
 * relies on.
 *
 * JavaScript values are the `Value` datatype; an object is a map from
 * property names to values, so the order of its properties is not kept.
 */
module KTUtil {
  import opened Text

  // ---------------------------------------------------------------------------
  // numberFormat

  /**
   * The digits with a comma wherever `/\B(?=(\d{3})+(?!\d))/g` matches: between
   * two digits, where the digits that follow up to the end come in threes.
   */
  function Group(s: string): string
    decreases |s|
  {
    if |s| <= 3 then s else Group(s[..|s| - 3]) + "," + s[|s| - 3..]
  }

  /** `numberFormat(n)` for an integer: the decimal string, its digits grouped; a minus sign is a word boundary and gets no comma. */
  function NumberFormat(n: int): string
  {
    if n < 0 then "-" + Group(NatToString(-n)) else Group(NatToString(n))
  }

  /** The text with every comma taken out. */
  function RemoveCommas(s: string): (r: string)
    ensures ',' !in r
  {
    if s == [] then []
    else if s[|s| - 1] == ',' then RemoveCommas(s[..|s| - 1])
    else RemoveCommas(s[..|s| - 1]) + [s[|s| - 1]]
  }

  lemma {:induction false} RemoveCommasConcat(a: string, b: string)
    ensures RemoveCommas(a + b) == RemoveCommas(a) + RemoveCommas(b)
    decreases |b|
  {
    if b != [] {
      assert (a + b)[..|a + b| - 1] == a + b[..|b| - 1];
      RemoveCommasConcat(a, b[..|b| - 1]);
    } else {
      assert a + b == a;
    }
  }

  lemma {:induction false} RemoveNoCommas(s: string)
    requires ',' !in s
    ensures RemoveCommas(s) == s
  {
    if s != [] {
      RemoveNoCommas(s[..|s| - 1]);
    }
  }

  /** Taking the commas out of the grouped digits gives the digits back. */
  lemma {:induction false} GroupRoundTrip(s: string)
    requires ',' !in s
    ensures RemoveCommas(Group(s)) == s
    decreases |s|
  {
    if |s| <= 3 {
      RemoveNoCommas(s);
    } else {
      var head, tail := s[..|s| - 3], s[|s| - 3..];
      GroupRoundTrip(head);
      RemoveCommasConcat(Group(head) + ",", tail);
      RemoveCommasConcat(Group(head), ",");
      RemoveNoCommas(tail);
      assert RemoveCommas(",") == [];
      assert head + tail == s;
    }
  }

  /** Removing the commas from `numberFormat`'s output gives `String(n)`. */
  lemma NumberFormatRoundTrip(n: int)
    ensures RemoveCommas(NumberFormat(n)) == IntToString(n)
  {
    if n < 0 {
      GroupRoundTrip(NatToString(-n));
      RemoveCommasConcat("-", Group(NatToString(-n)));
    } else {
      GroupRoundTrip(NatToString(n));
    }
  }

  /** Values with at most three digits come out unchanged. */
  lemma NumberFormatSmall(n: int)
    requires -1000 < n < 1000
    ensures NumberFormat(n) == IntToString(n)
  {
    var m: nat := if n < 0 then -n else n;
    NatDigitsBelow1000(m);
  }

  lemma {:induction false} NatDigitsBelow1000(m: nat)
    requires m < 1000
    ensures |NatToString(m)| <= 3
  {
    if m >= 10 {
      NatDigitsBelow1000(m / 10);
    }
  }

  /** The groups between the commas, from left to right. */
  function DigitGroups(s: string): seq<string>
    requires |s| > 0
    decreases |s|
  {
    if |s| <= 3 then [s] else DigitGroups(s[..|s| - 3]) + [s[|s| - 3..]]
  }

  /** The groups written out with commas between them. */
  function Join(groups: seq<string>): string
  {
    if |groups| <= 1 then (if groups == [] then "" else groups[0])
    else Join(groups[..|groups| - 1]) + "," + groups[|groups| - 1]
  }

  /** Grouped digits are groups joined by commas: the first has one to three digits, every later one exactly three. */
  lemma {:induction false} GroupShape(s: string)
    requires |s| > 0
    ensures var g := DigitGroups(s);
      && Join(g) == Group(s)
      && 1 <= |g[0]| <= 3
      && forall i :: 1 <= i < |g| ==> |g[i]| == 3
    decreases |s|
  {
    if |s| > 3 {
      var head := s[..|s| - 3];
      GroupShape(head);
      var g := DigitGroups(s);
      assert g[..|g| - 1] == DigitGroups(head);
      assert g[0] == DigitGroups(head)[0];
    }
  }

  /** For a non-negative integer, `numberFormat` gives digit groups of that shape. */
  lemma NumberFormatGroups(n: nat)
    ensures var g := DigitGroups(NatToString(n));
      && NumberFormat(n) == Join(g)
      && 1 <= |g[0]| <= 3
      && forall i :: 1 <= i < |g| ==> |g[i]| == 3 && AllDigits(g[i])
  {
    var s := NatToString(n);
    GroupShape(s);
    GroupsAreDigits(s);
  }

  lemma {:induction false} GroupsAreDigits(s: string)
    requires |s| > 0 && AllDigits(s)
    ensures forall i :: 0 <= i < |DigitGroups(s)| ==> AllDigits(DigitGroups(s)[i])
    decreases |s|
  {
    if |s| > 3 {
      GroupsAreDigits(s[..|s| - 3]);
    }
  }

  // ---------------------------------------------------------------------------
  // isObject and deepMerge

  /** A JavaScript value; functions, symbols and class instances are outside the model. */
  datatype Value =
    | Undefined
    | Null
    | Bool(b: bool)
    | Num(n: int)
    | Str(s: string)
    | Arr(items: seq<Value>)
    | Obj(fields: map<string, Value>)

  /** Truthiness. */
  predicate Truthy(v: Value)
  {
    match v
    case Undefined => false
    case Null => false
    case Bool(b) => b
    case Num(n) => n != 0
    case Str(s) => s != ""
    case _ => true
  }

  /** `typeof`. */
  function TypeOf(v: Value): string
  {
    match v
    case Undefined => "undefined"
    case Bool(_) => "boolean"
    case Num(_) => "number"
    case Str(_) => "string"
    case _ => "object"
  }

  /** `isObject`: truthy, of type `object`, and not an array. */
  predicate IsObject(v: Value)
  {
    Truthy(v) && TypeOf(v) == "object" && !v.Arr?
  }

  /** Exactly the plain objects pass `isObject`: not `null`, not arrays. */
  lemma IsObjectIffPlainObject(v: Value)
    ensures IsObject(v) <==> v.Obj?
  {
  }

  /**
   * `Object.assign({}, v)`: the own enumerable properties of `v`. An object
   * gives its properties, an array or a string its elements under their
   * indices, anything else nothing.
   */
  function OwnProperties(v: Value): (r: map<string, Value>)
    ensures v.Obj? ==> r == v.fields
    ensures v.Arr? ==> |r.Keys| == |v.items| && forall i :: 0 <= i < |v.items| ==> NatToString(i) in r && r[NatToString(i)] == v.items[i]
    ensures v.Str? ==> |r.Keys| == |v.s| && forall i :: 0 <= i < |v.s| ==> NatToString(i) in r && r[NatToString(i)] == Str([v.s[i]])
    ensures !v.Obj? && !v.Arr? && !v.Str? ==> r == map[]
  {
    match v
    case Obj(fields) => fields
    case Arr(items) => IndexMap(items)
    case Str(s) => IndexMap(seq(|s|, i requires 0 <= i < |s| => Str([s[i]])))
    case _ => map[]
  }

  /** A sequence as an object keyed by the decimal indices. */
  function IndexMap(items: seq<Value>): (r: map<string, Value>)
    ensures |r.Keys| == |items|
    ensures forall i :: 0 <= i < |items| ==> NatToString(i) in r && r[NatToString(i)] == items[i]
    ensures forall m :: m >= |items| ==> NatToString(m) !in r
    decreases |items|
  {
    if items == [] then map[]
    else
      var n := |items| - 1;
      var r := IndexMap(items[..n]);
      assert forall m: nat :: m > n ==> NatToString(m) != NatToString(n) by {
        forall m: nat | m > n
          ensures NatToString(m) != NatToString(n)
        {
          if NatToString(m) == NatToString(n) {
            NatToStringInjective(m, n);
          }
        }
      }
      r[NatToString(n) := items[n]]
  }

  /**
   * `deepMerge(target, source)`. When both are plain objects, every key of
   * either is in the result: a key only in `target` keeps its value; a
   * source value that is not a plain object (arrays included) overwrites; a
   * plain-object source value is copied as is when `target` lacks the key and
   * merged recursively into `target`'s value otherwise. When either argument
   * is not a plain object the result is a shallow copy of `target`.
   */
  function DeepMerge(target: Value, source: Value): (r: map<string, Value>)
    decreases source, 1
  {
    if IsObject(target) && IsObject(source) then
      map k | k in target.fields.Keys + source.fields.Keys ::
        if k in source.fields then MergedProperty(target.fields, source, k) else target.fields[k]
    else
      OwnProperties(target)
  }

  /** The value `forEach` stores under a key of `source`. */
  function MergedProperty(target: map<string, Value>, source: Value, key: string): Value
    requires source.Obj? && key in source.fields
    decreases source, 0
  {
    var v := source.fields[key];
    if IsObject(v) && key in target then Obj(DeepMerge(target[key], v)) else v
  }

  /** One call of the `forEach` callback. */
  function Step(output: map<string, Value>, target: map<string, Value>, source: Value, key: string): map<string, Value>
    requires source.Obj? && key in source.fields
  {
    output[key := MergedProperty(target, source, key)]
  }

  /** The `forEach` over `keys`, one callback after the other. */
  function ForEach(output: map<string, Value>, target: map<string, Value>, source: Value, keys: seq<string>): map<string, Value>
    requires source.Obj? && forall k :: k in keys ==> k in source.fields
    decreases |keys|
  {
    if keys == [] then output
    else ForEach(Step(output, target, source, keys[0]), target, source, keys[1..])
  }

  /** What the `forEach` leaves: the visited keys take their merged values, the others keep theirs. */
  lemma {:induction false} ForEachEffect(output: map<string, Value>, target: map<string, Value>, source: Value, keys: seq<string>)
    requires source.Obj? && forall k :: k in keys ==> k in source.fields
    ensures ForEach(output, target, source, keys).Keys == output.Keys + set k | k in keys
    ensures forall k :: k in keys ==> ForEach(output, target, source, keys)[k] == MergedProperty(target, source, k)
    ensures forall k :: k in output && k !in keys ==> ForEach(output, target, source, keys)[k] == output[k]
    decreases |keys|
  {
    if keys != [] {
      ForEachEffect(Step(output, target, source, keys[0]), target, source, keys[1..]);
    }
  }

  /**
   * Whatever order `Object.keys(source)` lists the keys in, the loop that
   * fills a copy of `target` produces `deepMerge`'s result.
   */
  lemma ForEachIsDeepMerge(target: Value, source: Value, keys: seq<string>)
    requires target.Obj? && source.Obj?
    requires forall k :: k in keys <==> k in source.fields
    ensures ForEach(OwnProperties(target), target.fields, source, keys) == DeepMerge(target, source)
  {
    ForEachEffect(target.fields, target.fields, source, keys);
  }

  /** The keys of the result, and the values under the keys only `target` has. */
  lemma DeepMergeKeys(target: Value, source: Value)
    requires IsObject(target) && IsObject(source)
    ensures DeepMerge(target, source).Keys == target.fields.Keys + source.fields.Keys
    ensures forall k :: k in target.fields && k !in source.fields ==> DeepMerge(target, source)[k] == target.fields[k]
  {
  }

  /** A source value that is not a plain object, or is one under a key `target` lacks, is taken as is. */
  lemma DeepMergeOverwrites(target: Value, source: Value, k: string)
    requires IsObject(target) && IsObject(source) && k in source.fields
    requires !IsObject(source.fields[k]) || k !in target.fields
    ensures DeepMerge(target, source)[k] == source.fields[k]
  {
  }

  /** Where both hold plain objects under a key, the result holds their merge. */
  lemma DeepMergeRecurses(target: Value, source: Value, k: string)
    requires IsObject(target) && IsObject(source) && k in source.fields && k in target.fields
    requires IsObject(source.fields[k])
    ensures DeepMerge(target, source)[k] == Obj(DeepMerge(target.fields[k], source.fields[k]))
  {
  }

  /** With an argument that is not a plain object, the result is a shallow copy of `target`. */
  lemma DeepMergeCopies(target: Value, source: Value)
    requires !IsObject(target) || !IsObject(source)
    ensures DeepMerge(target, source) == OwnProperties(target)
  {
  }

  /** Merging an object into itself gives it back. */
  lemma {:induction false} DeepMergeSelf(v: Value)
    requires v.Obj?
    ensures DeepMerge(v, v) == v.fields
    decreases v
  {
    forall k | k in v.fields
      ensures DeepMerge(v, v)[k] == v.fields[k]
    {
      var w := v.fields[k];
      if w.Obj? {
        DeepMergeSelf(w);
      }
    }
  }

  /** Merging into an empty object copies the source; merging an empty object copies the target. */
  lemma DeepMergeEmpty(v: Value)
    requires v.Obj?
    ensures DeepMerge(Obj(map[]), v) == v.fields
    ensures DeepMerge(v, Obj(map[])) == v.fields
  {
  }
}
