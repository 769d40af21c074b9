/**
 * The decision logic of `KTApp` in assets/js/scripts.bundle.js: the
 * breakpoint a viewport width falls in, the `mobile-view` class kept on the
 * body by `handleResize`, and the validity `validateInput` assigns to a form
 * field, with the classes it toggles.
 *
 * The viewport width is a parameter (what `KTUtil.getViewport` reads from the
 * window); a class list is a set of class names.
 */
module KTApp {
  import opened Wrappers
  import opened Text

  // ---------------------------------------------------------------------------
  // getBreakpoint and handleResize

  datatype Breakpoint = XS | SM | MD | LG | XL | XXL

  /** The name `getBreakpoint` returns. */
  function Name(b: Breakpoint): string
  {
    match b
    case XS => "xs"
    case SM => "sm"
    case MD => "md"
    case LG => "lg"
    case XL => "xl"
    case XXL => "xxl"
  }

  /** Breakpoints from the narrowest to the widest. */
  function Rank(b: Breakpoint): nat
  {
    match b
    case XS => 0
    case SM => 1
    case MD => 2
    case LG => 3
    case XL => 4
    case XXL => 5
  }

  /** The smallest width of each breakpoint's range (the narrowest has none). */
  function MinWidth(b: Breakpoint): int
    requires b != XS
  {
    match b
    case SM => 576
    case MD => 768
    case LG => 992
    case XL => 1200
    case XXL => 1400
  }

  /** The widths a breakpoint covers, as a table of ranges. */
  predicate InRange(b: Breakpoint, width: int)
  {
    && (b == XS || MinWidth(b) <= width)
    && match b
       case XS => width < 576
       case SM => width < 768
       case MD => width < 992
       case LG => width < 1200
       case XL => width < 1400
       case XXL => true
  }

  /** `getBreakpoint`: the first threshold the width is below, or `xxl`. */
  function GetBreakpoint(width: int): (b: Breakpoint)
  {
    if width < 576 then XS
    else if width < 768 then SM
    else if width < 992 then MD
    else if width < 1200 then LG
    else if width < 1400 then XL
    else XXL
  }

  /** The breakpoints partition the widths: a width is given exactly the breakpoint whose range holds it. */
  lemma BreakpointPartition(width: int, b: Breakpoint)
    ensures GetBreakpoint(width) == b <==> InRange(b, width)
  {
  }

  /** A wider viewport never gets a narrower breakpoint. */
  lemma BreakpointMonotone(w1: int, w2: int)
    requires w1 <= w2
    ensures Rank(GetBreakpoint(w1)) <= Rank(GetBreakpoint(w2))
  {
  }

  const MobileView: string := "mobile-view"

  /** The body's classes after `handleResize`: `mobile-view` is added below 992 pixels and removed otherwise. */
  function HandleResize(bodyClasses: set<string>, width: int): (r: set<string>)
    ensures MobileView in r <==> width < 992
    ensures forall c :: c != MobileView ==> (c in r <==> c in bodyClasses)
  {
    if width < 992 then bodyClasses + {MobileView} else bodyClasses - {MobileView}
  }

  /** The body is marked `mobile-view` exactly when the breakpoint is `xs`, `sm` or `md`. */
  lemma MobileViewIffSmallBreakpoint(bodyClasses: set<string>, width: int)
    ensures MobileView in HandleResize(bodyClasses, width) <==> GetBreakpoint(width) in {XS, SM, MD}
  {
  }

  // ---------------------------------------------------------------------------
  // The email pattern /^[^\s@]+@[^\s@]+\.[^\s@]+$/

  /** A run of `[^\s@]`. */
  predicate Plain(s: string)
  {
    forall k :: 0 <= k < |s| ==> !IsJsSpace(s[k]) && s[k] != '@'
  }

  /**
   * What the pattern accepts: a non-empty plain run, `@`, a non-empty plain
   * run, `.`, and a non-empty plain run, with nothing before or after.
   */
  predicate EmailPattern(s: string)
  {
    exists i, j ::
      && 0 < i && i + 1 < j && j + 1 < |s|
      && s[i] == '@' && s[j] == '.'
      && Plain(s[..i]) && Plain(s[i + 1..j]) && Plain(s[j + 1..])
  }

  /** No white space anywhere. */
  predicate NoSpace(s: string)
  {
    forall k :: 0 <= k < |s| ==> !IsJsSpace(s[k])
  }

  /** Two `@` at different places make at least two in the multiset. */
  lemma TwoAts(s: string, i: nat, k: nat)
    requires i < k < |s| && s[i] == '@' && s[k] == '@'
    ensures multiset(s)['@'] >= 2
  {
    assert s == s[..i] + [s[i]] + s[i + 1..k] + [s[k]] + s[k + 1..];
  }

  /**
   * The pattern in plain words: no white space, exactly one `@`, and a `.`
   * after it with text between them and text after the dot.
   */
  predicate EmailShape(s: string)
  {
    && NoSpace(s) && multiset(s)['@'] == 1
    && exists i, j :: 0 < i && i + 1 < j && j + 1 < |s| && s[i] == '@' && s[j] == '.'
  }

  /** A character inside a plain run is neither white space nor `@`. */
  lemma PlainAt(s: string, lo: nat, hi: nat, k: nat)
    requires lo <= k < hi <= |s| && Plain(s[lo..hi])
    ensures !IsJsSpace(s[k]) && s[k] != '@'
  {
    assert s[lo..hi][k - lo] == s[k];
  }

  /** An `@` at `i` and nowhere else counts once. */
  lemma OneAt(s: string, i: nat)
    requires i < |s| && s[i] == '@'
    requires forall k :: 0 <= k < |s| && k != i ==> s[k] != '@'
    ensures multiset(s)['@'] == 1
  {
    assert s == s[..i] + [s[i]] + s[i + 1..];
    assert '@' !in s[..i] by {
      forall k | 0 <= k < i ensures s[..i][k] != '@' { assert s[..i][k] == s[k]; }
    }
    var rest := s[i + 1..];
    assert '@' !in rest by {
      forall k | 0 <= k < |rest| ensures rest[k] != '@' { assert rest[k] == s[i + 1 + k]; }
    }
  }

  /** A string the pattern accepts has that shape. */
  lemma EmailPatternShape(s: string)
    requires EmailPattern(s)
    ensures EmailShape(s)
  {
    var i, j :| && 0 < i && i + 1 < j && j + 1 < |s|
                && s[i] == '@' && s[j] == '.'
                && Plain(s[..i]) && Plain(s[i + 1..j]) && Plain(s[j + 1..]);
    forall k | 0 <= k < |s| && k != i
      ensures !IsJsSpace(s[k]) && s[k] != '@'
    {
      if k < i {
        PlainAt(s, 0, i, k);
      } else if k < j {
        PlainAt(s, i + 1, j, k);
      } else if j < k {
        PlainAt(s, j + 1, |s|, k);
      }
    }
    OneAt(s, i);
  }

  /** A string of that shape is accepted by the pattern. */
  lemma ShapeEmailPattern(s: string)
    requires EmailShape(s)
    ensures EmailPattern(s)
  {
    var i, j :| 0 < i && i + 1 < j && j + 1 < |s| && s[i] == '@' && s[j] == '.';
    forall k | 0 <= k < |s| && k != i
      ensures s[k] != '@'
    {
      if s[k] == '@' {
        if k < i { TwoAts(s, k, i); } else { TwoAts(s, i, k); }
      }
    }
    assert Plain(s[..i]);
    assert Plain(s[i + 1..j]);
    assert Plain(s[j + 1..]);
  }

  /** The pattern accepts exactly the strings of that shape. */
  lemma EmailPatternMeaning(s: string)
    ensures EmailPattern(s) <==> EmailShape(s)
  {
    if EmailPattern(s) {
      EmailPatternShape(s);
    }
    if EmailShape(s) {
      ShapeEmailPattern(s);
    }
  }

  // ---------------------------------------------------------------------------
  // validateInput

  /** The parts of a form field `validateInput` reads and writes. */
  datatype Input = Input(value: string, required: bool, kind: string, classes: set<string>)

  /** What `validateInput` returns, and the field's classes afterwards. */
  datatype Checked = Checked(valid: bool, classes: set<string>)

  const IsValid: string := "is-valid"
  const IsInvalid: string := "is-invalid"

  /**
   * `validateInput`: a missing field returns at once. Otherwise the trimmed
   * value decides: an empty required field is invalid; a non-empty value of
   * an email field is valid exactly when it matches the pattern, whatever the
   * required check said; and the field gets `is-valid` or `is-invalid`.
   */
  function ValidateInput(input: Option<Input>): (r: Option<Checked>)
    ensures input.None? <==> r.None?
    ensures r.Some? ==>
      var field, value := input.value, JsTrim(input.value.value);
      && (field.required && value == "" ==> !r.value.valid)
      && (field.kind == "email" && value != "" ==> (r.value.valid <==> EmailPattern(value)))
      && (!field.required && field.kind != "email" ==> r.value.valid)
      && (field.kind == "email" && value == "" ==> (r.value.valid <==> !field.required))
      && (IsValid in r.value.classes <==> r.value.valid)
      && (IsInvalid in r.value.classes <==> !r.value.valid)
      && forall c :: c != IsValid && c != IsInvalid ==> (c in r.value.classes <==> c in field.classes)
  {
    match input
    case None => None
    case Some(field) =>
      var value := JsTrim(field.value);
      var required := !(field.required && value == "");
      var valid := if field.kind == "email" && value != "" then EmailPattern(value) else required;
      var classes :=
        if valid then field.classes - {IsInvalid} + {IsValid}
        else field.classes - {IsValid} + {IsInvalid};
      Some(Checked(valid, classes))
  }
}
