/** The toast notification element of the application template
    (templates/fs-app/internal/ui/components/toast/toast.ts): a custom element that shows an
    alert with a progress bar that counts down, pauses while the pointer is over it, follows a
    horizontal drag, and closes when the countdown finishes, when it is clicked or when it is
    flicked away fast enough.

    The DOM and the Web Animations API are reduced to the state the element keeps: the
    progress animation handle, the `left` style of the alert element as a string, the gesture
    window of the last drag samples, and the target of the closing slide. Clock readings,
    touch coordinates and whether text is selected inside the toast are parameters. */
module Toast {
  import opened Wrappers
  import Strs

  /** A JavaScript number as far as the flick test needs it: a finite value, an infinity,
      or NaN. */
  datatype JsNumber = Finite(value: real) | PosInf | NegInf | NaN

  // ---------------------------------------------------------------------------------------
  // parseInt and the `left` style

  /** The white space and line terminators `parseInt` skips before a number. */
  predicate IsJsSpace(c: char) {
    var n := c as int;
    n == 9 || n == 10 || n == 11 || n == 12 || n == 13 || n == 32 || n == 0xA0 || n == 0x1680
    || (0x2000 <= n <= 0x200A) || n == 0x2028 || n == 0x2029 || n == 0x202F || n == 0x205F
    || n == 0x3000 || n == 0xFEFF
  }

  predicate IsHexDigit(c: char) {
    Strs.IsDigit(c) || 'a' <= c <= 'f' || 'A' <= c <= 'F'
  }

  function HexDigitValue(c: char): (d: nat)
    requires IsHexDigit(c)
    ensures d < 16
  {
    if Strs.IsDigit(c) then c as int - '0' as int
    else if 'a' <= c <= 'f' then c as int - 'a' as int + 10
    else c as int - 'A' as int + 10
  }

  function HexValue(s: string): nat
    requires forall i :: 0 <= i < |s| ==> IsHexDigit(s[i])
  {
    if s == [] then 0
    else
      assert IsHexDigit(s[|s| - 1]);
      16 * HexValue(s[..|s| - 1]) + HexDigitValue(s[|s| - 1])
  }

  /** The value of the digits at the start of `u`, in base 16 after a `0x` or `0X` prefix and
      in base 10 otherwise; `None` when there is none. */
  function UnsignedPrefix(u: string): Option<nat> {
    if |u| >= 2 && u[0] == '0' && (u[1] == 'x' || u[1] == 'X') then
      var h := u[2..];
      var k := Strs.LeadingCount(h, IsHexDigit);
      if k == 0 then None
      else
        assert forall i :: 0 <= i < k ==> IsHexDigit(h[..k][i]);
        Some(HexValue(h[..k]))
    else
      var k := Strs.LeadingCount(u, Strs.IsDigit);
      if k == 0 then None
      else
        assert forall i :: 0 <= i < k ==> Strs.IsDigit(u[..k][i]);
        Some(Strs.DigitsValue(u[..k]))
  }

  /** `parseInt` without a radix: leading white space is skipped, then an optional sign, then
      the longest run of digits, hexadecimal after `0x`. `None` is NaN. */
  function JsParseInt(s: string): Option<int> {
    if s != [] && IsJsSpace(s[0]) then JsParseInt(s[1..])
    else ParseSigned(s)
  }

  /** `parseInt` after the white space: an optional sign and the number. */
  function ParseSigned(t: string): Option<int> {
    var u := if t != [] && (t[0] == '-' || t[0] == '+') then t[1..] else t;
    var p := UnsignedPrefix(u);
    if p.None? then None
    else
      var n: int := p.value;
      if t != [] && t[0] == '-' then Some(-n) else Some(n)
  }

  /** A string without a digit reads as NaN. */
  lemma {:induction false} JsParseIntNoDigits(s: string)
    requires forall i :: 0 <= i < |s| ==> !Strs.IsDigit(s[i])
    ensures JsParseInt(s).None?
  {
    if s != [] && IsJsSpace(s[0]) {
      assert forall i :: 0 <= i < |s| - 1 ==> s[1..][i] == s[i + 1];
      JsParseIntNoDigits(s[1..]);
    } else {
      var u := if s != [] && (s[0] == '-' || s[0] == '+') then s[1..] else s;
      assert forall i :: 0 <= i < |u| ==> u[i] in s;
      assert u != [] ==> !Strs.IsDigit(u[0]);
    }
  }

  /** How a template literal writes an integer. */
  function JsInt(n: int): (s: string)
    ensures s != []
  {
    if n < 0 then "-" + Strs.Itoa(-n) else Strs.Itoa(n)
  }

  /** The `left` style the element writes for an offset of `n` pixels. */
  function FormatPx(n: int): string {
    JsInt(n) + "px"
  }

  /** `#parseLeft`: 0 for an empty style, otherwise `parseInt` of the style without its last
      two characters. `None` is NaN. */
  function ParseLeft(style: string): Option<int> {
    if style == "" then Some(0)
    else if |style| < 2 then JsParseInt("")
    else JsParseInt(style[..|style| - 2])
  }

  lemma {:induction false} DigitRunLength(d: string, rest: string)
    requires forall i :: 0 <= i < |d| ==> Strs.IsDigit(d[i])
    requires rest == [] || !Strs.IsDigit(rest[0])
    ensures Strs.LeadingCount(d + rest, Strs.IsDigit) == |d|
    ensures (d + rest)[..|d|] == d
  {
    var s := d + rest;
    assert forall i :: 0 <= i < |d| ==> s[i] == d[i];
    assert |d| < |s| ==> s[|d|] == rest[0];
    var k := Strs.LeadingCount(s, Strs.IsDigit);
    assert k == |d|;
  }

  /** Without leading white space or sign, `parseInt` reads the decimal number at the start. */
  lemma UnsignedPrefixOfItoa(m: nat, rest: string)
    requires rest == [] || (!Strs.IsDigit(rest[0]) && rest[0] != 'x' && rest[0] != 'X')
    ensures Strs.IsDigit((Strs.Itoa(m) + rest)[0])
    ensures UnsignedPrefix(Strs.Itoa(m) + rest) == Some(m)
  {
    var d := Strs.Itoa(m);
    var u := d + rest;
    DigitRunLength(d, rest);
    assert u[0] == d[0];
    assert |d| > 1 ==> d[0] != '0';
    assert |d| == 1 && |u| >= 2 ==> u[1] == rest[0];
  }

  /** A string that starts with neither white space nor a sign is read from its first character. */
  lemma JsParseIntUnsigned(u: string, m: nat)
    requires u != [] && Strs.IsDigit(u[0]) && UnsignedPrefix(u) == Some(m)
    ensures JsParseInt(u) == Some(m)
  {
    assert !IsJsSpace(u[0]) && u[0] != '-' && u[0] != '+';
  }

  /** A minus sign in front of such a string negates what it reads as. */
  lemma JsParseIntNegated(u: string, m: nat)
    requires u != [] && Strs.IsDigit(u[0]) && UnsignedPrefix(u) == Some(m)
    ensures JsParseInt("-" + u) == Some(-(m as int))
  {
    var t := "-" + u;
    assert t[0] == '-' && !IsJsSpace(t[0]);
    assert t[1..] == u;
  }

  /** `parseInt` reads back an integer that a template literal wrote, whatever follows it
      unless that continues the number. */
  lemma JsParseIntOfJsInt(n: int, rest: string)
    requires rest == [] || (!Strs.IsDigit(rest[0]) && rest[0] != 'x' && rest[0] != 'X')
    ensures JsParseInt(JsInt(n) + rest) == Some(n)
  {
    var m: nat := if n < 0 then -n else n;
    var u := Strs.Itoa(m) + rest;
    UnsignedPrefixOfItoa(m, rest);
    JsIntConcat(n, rest);
    JsParseIntUnsigned(u, m);
    JsParseIntNegated(u, m);
  }

  lemma JsIntConcat(n: int, rest: string)
    ensures n < 0 ==> JsInt(n) + rest == "-" + (Strs.Itoa(-n) + rest)
    ensures n >= 0 ==> JsInt(n) + rest == Strs.Itoa(n) + rest
  {
  }

  /** Reading back a `left` style the element wrote gives the offset it wrote. */
  lemma ParseLeftFormatPx(n: int)
    ensures ParseLeft(FormatPx(n)) == Some(n)
  {
    var s := FormatPx(n);
    assert s[..|s| - 2] == JsInt(n) + "";
    JsParseIntOfJsInt(n, "");
  }

  /** How a template literal writes NaN, followed by "px". */
  const NaNPx: string := "NaNpx"

  /** The `left` style after a drag by `dx`: the offset it reads as, moved by `dx`; an offset
      that reads as NaN stays NaN. */
  function NextLeft(style: string, dx: int): string {
    var left := ParseLeft(style);
    if left.None? then NaNPx else FormatPx(left.value + dx)
  }

  /** A drag moves the offset the style reads as by exactly `dx`, and keeps an unreadable one
      unreadable. */
  lemma NextLeftMoves(style: string, dx: int)
    ensures ParseLeft(style).Some? ==> ParseLeft(NextLeft(style, dx)) == Some(ParseLeft(style).value + dx)
    ensures ParseLeft(style).None? ==> ParseLeft(NextLeft(style, dx)).None?
  {
    if ParseLeft(style).Some? {
      ParseLeftFormatPx(ParseLeft(style).value + dx);
    } else {
      assert NaNPx[..|NaNPx| - 2] == "NaN";
    }
  }

  // ---------------------------------------------------------------------------------------
  // Attributes

  const DefaultDuration: int := 5000

  /** The countdown duration of the `duration` attribute (`None` when absent): its `parseInt`
      value, or 5000 milliseconds when that is NaN. */
  function Duration(attr: Option<string>): (d: int)
    ensures attr.None? || attr == Some("") ==> d == DefaultDuration
    ensures attr.Some? && (forall i :: 0 <= i < |attr.value| ==> !Strs.IsDigit(attr.value[i])) ==> d == DefaultDuration
  {
    var s := if attr.None? then "" else attr.value;
    var p := JsParseInt(s);
    assert (forall i :: 0 <= i < |s| ==> !Strs.IsDigit(s[i])) ==> p.None? by {
      if forall i :: 0 <= i < |s| ==> !Strs.IsDigit(s[i]) {
        JsParseIntNoDigits(s);
      }
    }
    if p.None? then DefaultDuration else p.value
  }

  /** A written-out number of milliseconds is taken as it is, negative ones included. */
  lemma DurationOfNumber(n: int)
    ensures Duration(Some(JsInt(n))) == n
  {
    assert JsInt(n) + "" == JsInt(n);
    JsParseIntOfJsInt(n, "");
  }

  /** The alert types that have a class of their own. */
  predicate IsAlertType(t: string) {
    t == "success" || t == "info" || t == "warning" || t == "error"
  }

  /** The class the `type` attribute adds to the alert: `alert-<type>` for the four alert
      types, none for any other value or none at all. */
  function AlertClass(typeAttr: Option<string>): (c: string)
    ensures c != "" <==> typeAttr.Some? && IsAlertType(typeAttr.value)
    ensures c != "" ==> c == "alert-" + typeAttr.value
  {
    var t := if typeAttr.None? then "" else typeAttr.value;
    if IsAlertType(t) then "alert-" + t else ""
  }

  /** The members every object inherits from `Object.prototype`, which an index into an object
      literal finds too. */
  predicate IsPrototypeMember(t: string) {
    t == "constructor" || t == "toString" || t == "toLocaleString" || t == "valueOf"
    || t == "hasOwnProperty" || t == "isPrototypeOf" || t == "propertyIsEnumerable"
    || t == "__defineGetter__" || t == "__defineSetter__" || t == "__lookupGetter__"
    || t == "__lookupSetter__" || t == "__proto__"
  }

  /** How a template literal writes the inherited member `t`: a built-in function's source
      text, or the prototype object itself for `__proto__`. */
  function PrototypeMemberText(t: string): string {
    if t == "__proto__" then "[object Object]"
    else if t == "constructor" then "function Object() { [native code] }"
    else "function " + t + "() { [native code] }"
  }

  /** The class as the element computes it: the type indexes the class table, an object
      literal, so an inherited member is found and is truthy, and its text becomes the class. */
  function AlertClassAsWritten(typeAttr: Option<string>): (c: string)
    ensures typeAttr.Some? && IsAlertType(typeAttr.value) ==> c == "alert-" + typeAttr.value
  {
    var t := if typeAttr.None? then "" else typeAttr.value;
    if IsAlertType(t) then "alert-" + t
    else if IsPrototypeMember(t) then PrototypeMemberText(t)
    else ""
  }

  /** A `type` of "constructor" is no alert type, yet it fills the class attribute with the
      source text of `Object`. */
  lemma AlertClassAsWrittenLeaksPrototype()
    ensures !IsAlertType("constructor")
    ensures AlertClassAsWritten(Some("constructor")) == "function Object() { [native code] }"
    ensures AlertClass(Some("constructor")) == ""
  {
  }

  // ---------------------------------------------------------------------------------------
  // The gesture window and the flick test

  /** A drag sample: the horizontal distance since the previous touch event, and the time. */
  datatype Sample = Sample(dx: int, ts: real)

  /** Two drag distances go in opposite directions. */
  predicate Reverses(a: int, b: int) {
    (a < 0 && b > 0) || (a > 0 && b < 0)
  }

  /** The element tests a reversal as a negative product of the two distances. */
  lemma ReversesIsNegativeProduct(a: int, b: int)
    ensures Reverses(a, b) <==> a * b < 0
  {
    if a > 0 && b > 0 {
      assert a * b > 0;
    } else if a < 0 && b < 0 {
      assert a * b == (-a) * (-b);
    } else if a > 0 && b < 0 {
      assert a * b == -(a * (-b));
    } else if a < 0 && b > 0 {
      assert a * b == -((-a) * b);
    }
  }

  /** Whether a sample `dx` turns the drag of window `w` around. */
  predicate TurnsAround(w: seq<Sample>, dx: int) {
    |w| > 0 && Reverses(w[|w| - 1].dx, dx)
  }

  /** The samples at `i` and `i + 1` go in opposite directions. */
  predicate TurnAt(w: seq<Sample>, i: int) {
    0 <= i && i + 1 < |w| && Reverses(w[i].dx, w[i + 1].dx)
  }

  /** No two neighbouring samples go in opposite directions. */
  predicate NoReversal(w: seq<Sample>) {
    forall i | 0 <= i < |w| :: !TurnAt(w, i)
  }

  /** `slice(-5)`: the last five samples. */
  function LastFive(w: seq<Sample>): (r: seq<Sample>)
    ensures |r| <= 5 && |r| == if |w| < 5 then |w| else 5
    ensures r == w[|w| - |r|..]
  {
    if |w| <= 5 then w else w[|w| - 5..]
  }

  /** The window after a drag sample `dx` at time `now`: cleared first when the drag turned
      around, then the sample appended, then cut to its last five. */
  function Window(w: seq<Sample>, dx: int, now: real): (r: seq<Sample>)
    ensures 1 <= |r| <= 5 && r[|r| - 1] == Sample(dx, now)
  {
    var kept := if TurnsAround(w, dx) then [] else w;
    LastFive(kept + [Sample(dx, now)])
  }

  /** A drag that turns around leaves the new sample alone in the window; any other keeps the
      last five of the old window and the sample. */
  lemma WindowShape(w: seq<Sample>, dx: int, now: real)
    ensures TurnsAround(w, dx) ==> Window(w, dx, now) == [Sample(dx, now)]
    ensures !TurnsAround(w, dx) ==>
              var v := w + [Sample(dx, now)];
              var r := Window(w, dx, now);
              |r| == (if |v| < 5 then |v| else 5) && r == v[|v| - |r|..]
  {
  }

  /** The window never holds a reversal: a drag that turns around starts a new window. */
  lemma WindowNoReversal(w: seq<Sample>, dx: int, now: real)
    requires NoReversal(w)
    ensures NoReversal(Window(w, dx, now))
  {
    var s := Sample(dx, now);
    var r := Window(w, dx, now);
    WindowShape(w, dx, now);
    if TurnsAround(w, dx) {
      forall i | 0 <= i < |r| ensures !TurnAt(r, i) {
      }
    } else {
      var v := w + [s];
      var off := |v| - |r|;
      assert r == v[off..];
      forall i | 0 <= i < |r| ensures !TurnAt(r, i) {
        if 0 <= i && i + 1 < |r| {
          assert r[i] == v[off + i] && r[i + 1] == v[off + i + 1];
          if off + i + 1 < |w| {
            assert !TurnAt(w, off + i);
          }
        }
      }
    }
  }

  /** The distance the samples cover. */
  function SumDx(w: seq<Sample>): int {
    if w == [] then 0 else SumDx(w[..|w| - 1]) + w[|w| - 1].dx
  }

  /** JavaScript's `x / t` for an integer distance and a time span. */
  function Velocity(x: int, t: real): (v: JsNumber)
    ensures t != 0.0 ==> v == Finite(x as real / t)
    ensures t == 0.0 ==> (v.NaN? <==> x == 0)
  {
    if t != 0.0 then Finite(x as real / t)
    else if x > 0 then PosInf
    else if x < 0 then NegInf
    else NaN
  }

  function Abs(r: real): real {
    if r < 0.0 then -r else r
  }

  /** The flick test against a threshold of half the available screen width in pixels per
      second: `Math.abs(v * 1000) >= threshold`, with velocities in pixels per millisecond. */
  function Dismisses(v: JsNumber, availWidth: int): (b: bool)
    ensures v.PosInf? || v.NegInf? ==> b
    ensures v.NaN? ==> !b
  {
    match v
    case Finite(r) => Abs(r * 1000.0) >= availWidth as real / 2.0
    case PosInf => true
    case NegInf => true
    case NaN => false
  }

  /** Over a positive time span, the flick test is the division-free comparison
      2000 * |x| >= availWidth * t. */
  lemma FlickCrossMultiplied(x: int, t: real, availWidth: int)
    requires t > 0.0
    ensures Dismisses(Velocity(x, t), availWidth) <==> 2000.0 * Abs(x as real) >= availWidth as real * t
  {
    var v := x as real / t;
    assert v * t == x as real;
    assert Abs(v * 1000.0) * t == 1000.0 * Abs(x as real) by {
      if x < 0 { assert v < 0.0; } else { assert v >= 0.0; }
    }
    var a := Abs(v * 1000.0);
    var w := availWidth as real / 2.0;
    assert a >= w <==> a * t >= w * t;
  }

  /** The left edge the closing slide ends at: the offset plus 250 milliseconds at the
      velocity; NaN for an unreadable offset. */
  function SlideTarget(left: Option<int>, v: JsNumber): (r: JsNumber)
    ensures left.Some? && v.Finite? ==> r == Finite(left.value as real + v.value * 250.0)
    ensures left.None? || v.NaN? ==> r.NaN?
  {
    if left.None? then NaN
    else match v
      case Finite(r) => Finite(left.value as real + r * 250.0)
      case PosInf => PosInf
      case NegInf => NegInf
      case NaN => NaN
  }

  // ---------------------------------------------------------------------------------------
  // The element

  /** A child node of the toast, kept as its markup. */
  datatype Node = Node(markup: string)

  /** The progress bar `render` puts into the alert. */
  const ProgressBar: Node := Node("<div class=\"toast-alert-progress\"></div>")

  /** The progress animation: how long it runs and whether it is playing. */
  datatype Animation = Animation(duration: int, playing: bool)

  class Toast {
    /** Copies of the children the element had when it was created. */
    const children: seq<Node>
    const typeAttr: Option<string>
    const durationAttr: Option<string>
    /** `window.screen.availWidth`. */
    const availWidth: int

    var alertClass: string
    var alertChildren: seq<Node>
    var progress: Option<Animation>
    /** Whether the mouse and touch listeners are attached; `disconnectedCallback` removes them. */
    var touchListeners: bool
    /** How many click listeners are attached: each connection adds one and none is ever removed. */
    var clickListeners: nat
    /** The horizontal position of the last touch event. */
    var lastTouchX: Option<int>
    var changes: seq<Sample>
    /** The `left` style of the alert element. */
    var leftStyle: string
    /** The left edge the closing slide ends at, once the toast closes. */
    var closing: Option<JsNumber>

    /** The window is short and keeps one direction. */
    predicate Valid()
      reads this
    {
      |changes| <= 5 && NoReversal(changes)
    }

    constructor (children: seq<Node>, typeAttr: Option<string>, durationAttr: Option<string>, availWidth: int)
      ensures Valid()
      ensures this.children == children && this.typeAttr == typeAttr
      ensures this.durationAttr == durationAttr && this.availWidth == availWidth
      ensures alertChildren == [] && progress.None? && !touchListeners && clickListeners == 0
      ensures lastTouchX.None? && changes == [] && leftStyle == "" && closing.None?
    {
      this.children := children;
      this.typeAttr := typeAttr;
      this.durationAttr := durationAttr;
      this.availWidth := availWidth;
      alertClass := "";
      alertChildren := [];
      progress := None;
      touchListeners := false;
      clickListeners := 0;
      lastTouchX := None;
      changes := [];
      leftStyle := "";
      closing := None;
    }

    /** `render`: a fresh alert with the class of the `type` attribute, holding the saved
        children, in order, before the progress bar. */
    method Render()
      modifies this
      ensures alertClass == AlertClass(typeAttr)
      ensures alertChildren == children + [ProgressBar]
      ensures alertChildren[..|children|] == children
      ensures leftStyle == ""
      ensures progress == old(progress) && changes == old(changes) && lastTouchX == old(lastTouchX)
      ensures touchListeners == old(touchListeners) && clickListeners == old(clickListeners)
      ensures closing == old(closing)
    {
      alertClass := AlertClass(typeAttr);
      alertChildren := children + [ProgressBar];
      leftStyle := "";
    }

    /** `connectedCallback`: render, start the countdown of the `duration` attribute and attach
        the listeners. A negative duration makes `animate` throw, which leaves the handle as
        it was and attaches nothing. */
    method ConnectedCallback()
      requires Valid()
      modifies this
      ensures Valid()
      ensures alertClass == AlertClass(typeAttr) && alertChildren == children + [ProgressBar]
      ensures leftStyle == ""
      ensures Duration(durationAttr) >= 0 ==>
                && progress == Some(Animation(Duration(durationAttr), true))
                && touchListeners && clickListeners == old(clickListeners) + 1
      ensures Duration(durationAttr) < 0 ==>
                progress == old(progress) && touchListeners == old(touchListeners) && clickListeners == old(clickListeners)
      ensures changes == old(changes) && lastTouchX == old(lastTouchX) && closing == old(closing)
    {
      Render();
      var d := Duration(durationAttr);
      if d < 0 {
        return;
      }
      progress := Some(Animation(d, true));
      touchListeners := true;
      clickListeners := clickListeners + 1;
    }

    /** `disconnectedCallback`: the mouse and touch listeners go; the click listener stays,
        because a new function is passed to `removeEventListener`. */
    method DisconnectedCallback()
      modifies this
      ensures !touchListeners && clickListeners == old(clickListeners)
      ensures progress == old(progress) && changes == old(changes) && leftStyle == old(leftStyle)
      ensures lastTouchX == old(lastTouchX) && closing == old(closing)
    {
      touchListeners := false;
    }

    /** `onMouseEnter`, and the pause of `onTouchStart`: the countdown stops, if there is one. */
    method Pause()
      modifies this
      ensures progress == if old(progress).None? then None else Some(old(progress).value.(playing := false))
      ensures changes == old(changes) && leftStyle == old(leftStyle) && lastTouchX == old(lastTouchX)
      ensures closing == old(closing)
    {
      if progress.Some? {
        progress := Some(progress.value.(playing := false));
      }
    }

    /** `onMouseLeave`: the countdown resumes, if there is one. */
    method Play()
      modifies this
      ensures progress == if old(progress).None? then None else Some(old(progress).value.(playing := true))
      ensures changes == old(changes) && leftStyle == old(leftStyle) && lastTouchX == old(lastTouchX)
      ensures closing == old(closing)
    {
      if progress.Some? {
        progress := Some(progress.value.(playing := true));
      }
    }

    /** `onTouchStart`: the touch becomes the reference, the window empties and the countdown
        pauses. */
    method TouchStart(x: int)
      requires Valid()
      modifies this
      ensures Valid()
      ensures lastTouchX == Some(x) && changes == []
      ensures progress == if old(progress).None? then None else Some(old(progress).value.(playing := false))
      ensures leftStyle == old(leftStyle) && closing == old(closing)
    {
      lastTouchX := Some(x);
      changes := [];
      Pause();
    }

    /** The last line of `onTouchMove`: the `left` style becomes the offset it reads as, moved
        by `dx`. */
    method MoveBy(dx: int)
      modifies this
      ensures leftStyle == NextLeft(old(leftStyle), dx)
      ensures progress == old(progress) && closing == old(closing)
      ensures changes == old(changes) && lastTouchX == old(lastTouchX)
    {
      var left := ParseLeft(leftStyle);
      leftStyle := if left.None? then NaNPx else FormatPx(left.value + dx);
    }

    /** `onTouchMove` for a touch at `x` at time `now`: the sample goes into the window and the
        alert moves by the distance since the last touch event. Without a touch start there is
        no last event, and the handler throws before changing anything. */
    method TouchMove(x: int, now: real)
      requires Valid()
      modifies this
      ensures Valid()
      ensures old(lastTouchX).None? ==>
                lastTouchX == old(lastTouchX) && changes == old(changes) && leftStyle == old(leftStyle)
      ensures old(lastTouchX).Some? ==> lastTouchX == Some(x)
      ensures old(lastTouchX).Some? ==> changes == Window(old(changes), x - old(lastTouchX).value, now)
      ensures old(lastTouchX).Some? ==> leftStyle == NextLeft(old(leftStyle), x - old(lastTouchX).value)
      ensures progress == old(progress) && closing == old(closing)
    {
      if lastTouchX.None? {
        return;
      }
      Drag(x - lastTouchX.value, x, now);
    }

    /** The body of `onTouchMove` once there is a last touch: the drag `dx` goes into the
        window, the touch at `x` is remembered and the alert moves by `dx`. */
    method Drag(dx: int, x: int, now: real)
      requires Valid()
      modifies this
      ensures Valid()
      ensures changes == Window(old(changes), dx, now)
      ensures lastTouchX == Some(x) && leftStyle == NextLeft(old(leftStyle), dx)
      ensures progress == old(progress) && closing == old(closing)
    {
      Record(dx, now);
      // `#parseLeft` does not read the last touch, so remembering it after the move is the same
      MoveBy(dx);
      lastTouchX := Some(x);
    }

    /** The window part of `onTouchMove`: the window is cleared when the drag `dx` turns it
        around, then takes the sample and is cut to its last five. */
    method Record(dx: int, now: real)
      requires |changes| <= 5 && NoReversal(changes)
      modifies this
      ensures changes == Window(old(changes), dx, now)
      ensures |changes| <= 5 && NoReversal(changes)
      ensures leftStyle == old(leftStyle) && lastTouchX == old(lastTouchX)
      ensures progress == old(progress) && closing == old(closing)
    {
      var w := changes;
      if TurnsAround(w, dx) {
        w := [];
      }
      w := w + [Sample(dx, now)];
      w := LastFive(w);
      WindowNoReversal(changes, dx, now);
      changes := w;
    }

    /** `triggerClose`: nothing once the countdown handle is gone, and nothing while text is
        selected inside the toast; otherwise the handle goes, so that the toast closes once, and
        the alert slides to its offset plus 250 milliseconds at the velocity. The click
        listener and the end of the countdown call it with velocity 0. */
    method TriggerClose(v: JsNumber, selectionInside: bool)
      modifies this
      ensures old(progress).None? || selectionInside ==>
                progress == old(progress) && closing == old(closing)
      ensures old(progress).Some? && !selectionInside ==>
                progress.None? && closing == Some(SlideTarget(ParseLeft(leftStyle), v))
      ensures changes == old(changes) && leftStyle == old(leftStyle) && lastTouchX == old(lastTouchX)
    {
      if progress.None? {
        return;
      }
      if selectionInside {
        return;
      }
      progress := None;
      var left := ParseLeft(leftStyle);
      closing := Some(SlideTarget(left, v));
    }

    /** `onTouchEnd` at time `now`: a flick, judged on the window, closes the toast at its
        velocity; anything else resumes the countdown and puts the alert back in place. An
        empty window is never a flick. */
    method TouchEnd(now: real, selectionInside: bool)
      requires Valid()
      modifies this
      ensures Valid()
      ensures var flick := |old(changes)| > 0 && Dismisses(Velocity(SumDx(old(changes)), now - old(changes)[0].ts), availWidth);
              && (flick ==> leftStyle == old(leftStyle)
                            && (old(progress).None? || selectionInside ==> progress == old(progress) && closing == old(closing))
                            && (old(progress).Some? && !selectionInside ==>
                                  progress.None? && closing == Some(SlideTarget(ParseLeft(old(leftStyle)), Velocity(SumDx(old(changes)), now - old(changes)[0].ts)))))
              && (!flick ==> leftStyle == "" && closing == old(closing)
                             && progress == if old(progress).None? then None else Some(old(progress).value.(playing := true)))
      ensures changes == old(changes) && lastTouchX == old(lastTouchX)
    {
      if |changes| > 0 {
        var x := SumDx(changes);
        var t := now - changes[0].ts;
        var v := Velocity(x, t);
        if Dismisses(v, availWidth) {
          TriggerClose(v, selectionInside);
          return;
        }
      }
      Play();
      leftStyle := "";
    }
  }
}
