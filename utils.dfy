/** The small helpers of `src/lib/utils.ts` that the planner and the processor
    share: error-message extraction (`eem`), the random id (`uid`), the
    segment-wise common root of two paths (`commonPathsRoot`) and the `get`
    trap of the read-only proxy that reports reads of missing properties
    (`makeUndefinedProxy`). */
module Utils {
  import opened Wrappers
  import opened Strings

  // ---------------------------------------------------------------------
  // eem

  /** A value caught by a `catch`: an `Error` instance, whose `stack` is ""
      when it is missing, or anything else, given by its string conversion. */
  datatype Thrown = ErrorValue(message: string, stack: string) | NonError(text: string)

  /** `eem(error, preferStack)`: the message of an `Error` (its stack instead
      when asked for and not empty), the string conversion of anything else. */
  function Eem(error: Thrown, preferStack: bool): (r: string)
    ensures error.NonError? ==> r == error.text
    ensures error.ErrorValue? && preferStack && error.stack != "" ==> r == error.stack
    ensures error.ErrorValue? && (!preferStack || error.stack == "") ==> r == error.message
  {
    match error
    case ErrorValue(message, stack) => if preferStack && stack != "" then stack else message
    case NonError(text) => text
  }

  // ---------------------------------------------------------------------
  // uid

  predicate IsBase36Digit(c: char) { '0' <= c <= '9' || 'a' <= c <= 'z' }

  /** `d.toString(36)` for a digit value below 36. */
  function Base36Digit(d: nat): (c: char)
    requires d < 36
    ensures IsBase36Digit(c)
  {
    if d < 10 then ('0' as int + d) as char else ('a' as int + d - 10) as char
  }

  /** Every base-36 character is the digit of exactly one value. */
  lemma Base36DigitBijective(c: char)
    requires IsBase36Digit(c)
    ensures exists d :: 0 <= d < 36 && Base36Digit(d) == c
    ensures forall d, e :: 0 <= d < 36 && 0 <= e < 36 && Base36Digit(d) == Base36Digit(e) ==> d == e
  {
    if c <= '9' {
      assert Base36Digit(c as int - '0' as int) == c;
    } else {
      assert Base36Digit(c as int - 'a' as int + 10) == c;
    }
  }

  /** `uid(size)`: `size` independent draws of `Math.floor(Math.random() * 36)`,
      each written as one base-36 digit. The draws are a free choice here. */
  method Uid(size: nat) returns (id: string)
    ensures |id| == size
    ensures forall k :: 0 <= k < |id| ==> IsBase36Digit(id[k])
  {
    id := "";
    for k := 0 to size
      invariant |id| == k
      invariant forall j :: 0 <= j < |id| ==> IsBase36Digit(id[j])
    {
      var draw: nat :| draw < 36;
      id := id + [Base36Digit(draw)];
    }
  }

  // ---------------------------------------------------------------------
  // commonPathsRoot

  /** The characters in the class `[\\\/]`. */
  predicate IsSeparator(c: char) { c == '/' || c == '\\' }

  predicate NoSeparator(s: string) { forall k :: 0 <= k < |s| ==> !IsSeparator(s[k]) }

  /** `s` with its leading run of separators removed. */
  function SkipSeparators(s: string): (r: string)
    ensures |r| <= |s| && r == s[|s| - |r|..]
    ensures r != [] ==> !IsSeparator(r[0])
  {
    if s != [] && IsSeparator(s[0]) then SkipSeparators(s[1..]) else s
  }

  /** The split of `s` once `current` holds the characters of the segment in progress. */
  function SplitFrom(s: string, current: string): (parts: seq<string>)
    requires NoSeparator(current)
    ensures |parts| >= 1
    ensures forall k :: 0 <= k < |parts| ==> NoSeparator(parts[k])
    decreases |s|
  {
    if s == [] then [current]
    else if IsSeparator(s[0]) then [current] + SplitFrom(SkipSeparators(s[1..]), [])
    else SplitFrom(s[1..], current + [s[0]])
  }

  /** `s.split(/[\\\/]+/)`: the pieces between maximal runs of separators. A
      leading or trailing run gives an empty first or last piece. */
  function SplitPath(s: string): (parts: seq<string>)
    ensures |parts| >= 1
    ensures forall k :: 0 <= k < |parts| ==> NoSeparator(parts[k])
  {
    SplitFrom(s, [])
  }

  lemma {:induction false} SplitFromPlain(s: string, current: string)
    requires NoSeparator(current) && NoSeparator(s)
    ensures SplitFrom(s, current) == [current + s]
    decreases |s|
  {
    if s == [] {
      assert current + s == current;
    } else {
      assert !IsSeparator(s[0]);
      SplitFromPlain(s[1..], current + [s[0]]);
      assert current + [s[0]] + s[1..] == current + s;
    }
  }

  /** A string without separators is a single segment. */
  lemma SplitPlain(s: string)
    requires NoSeparator(s)
    ensures SplitPath(s) == [s]
  {
    SplitFromPlain(s, []);
    assert [] + s == s;
  }

  lemma {:induction false} SplitFromSegment(y: string, t: string, current: string)
    requires NoSeparator(current) && NoSeparator(y)
    requires t == [] || !IsSeparator(t[0])
    ensures SplitFrom(y + "/" + t, current) == [current + y] + SplitFrom(t, [])
    decreases |y|
  {
    if y == [] {
      assert y + "/" + t == "/" + t;
      assert ("/" + t)[1..] == t;
      assert current + y == current;
    } else {
      assert (y + "/" + t)[1..] == y[1..] + "/" + t;
      SplitFromSegment(y[1..], t, current + [y[0]]);
      assert current + [y[0]] + y[1..] == current + y;
    }
  }

  /** A segment followed by one separator splits off as the first piece. */
  lemma SplitSegment(y: string, t: string)
    requires NoSeparator(y)
    requires t == [] || !IsSeparator(t[0])
    ensures SplitPath(y + "/" + t) == [y] + SplitPath(t)
  {
    SplitFromSegment(y, t, []);
    assert [] + y == y;
  }

  /** The longest run of equal elements at the same indexes, from the start. */
  function CommonPrefix(a: seq<string>, b: seq<string>): seq<string>
  {
    if a == [] || b == [] || a[0] != b[0] then [] else [a[0]] + CommonPrefix(a[1..], b[1..])
  }

  /** The common prefix is a prefix of both inputs, and it cannot be extended. */
  lemma {:induction false} CommonPrefixIsLongest(a: seq<string>, b: seq<string>)
    ensures var p := CommonPrefix(a, b);
      && |p| <= |a| && |p| <= |b|
      && p == a[..|p|] && p == b[..|p|]
      && (|p| < |a| && |p| < |b| ==> a[|p|] != b[|p|])
  {
    if a != [] && b != [] && a[0] == b[0] {
      CommonPrefixIsLongest(a[1..], b[1..]);
    }
  }

  /** The common prefix does not depend on the order of the two inputs. */
  lemma {:induction false} CommonPrefixSymmetric(a: seq<string>, b: seq<string>)
    ensures CommonPrefix(a, b) == CommonPrefix(b, a)
  {
    if a != [] && b != [] && a[0] == b[0] {
      CommonPrefixSymmetric(a[1..], b[1..]);
    }
  }

  /** Any sequence that both inputs start with is a prefix of the common prefix. */
  lemma {:induction false} CommonPrefixGreatest(a: seq<string>, b: seq<string>, q: seq<string>)
    requires q <= a && q <= b
    ensures q <= CommonPrefix(a, b)
  {
    if q != [] {
      CommonPrefixGreatest(a[1..], b[1..], q[1..]);
    }
  }

  /** A shared prefix that stops at the end of an input or at a mismatch is the common prefix. */
  lemma {:induction false} CommonPrefixAt(a: seq<string>, b: seq<string>, i: nat)
    requires i <= |a| && i <= |b| && a[..i] == b[..i]
    requires i == |a| || i == |b| || a[i] != b[i]
    ensures CommonPrefix(a, b) == a[..i]
  {
    if i > 0 {
      assert a[0] == a[..i][0] == b[..i][0] == b[0];
      assert a[1..][..i - 1] == a[1..i] && b[1..][..i - 1] == b[1..i];
      assert a[1..i] == a[..i][1..] && b[1..i] == b[..i][1..];
      CommonPrefixAt(a[1..], b[1..], i - 1);
      assert a[..i] == [a[0]] + a[1..i];
    }
  }

  /** `commonPathsRoot(a, b)`: the leading segments both paths share, joined
      with the platform separator `sep`. The loop stops at the first index
      whose segments differ. */
  method CommonPathsRoot(a: string, b: string, sep: string) returns (root: string)
    ensures root == Join(CommonPrefix(SplitPath(a), SplitPath(b)), sep)
  {
    var sameParts: seq<string> := [];
    var aParts := SplitPath(a);
    var bParts := SplitPath(b);
    var loopSize := Min(|aParts|, |bParts|);
    var i := 0;
    while i < loopSize
      invariant 0 <= i <= loopSize
      invariant sameParts == aParts[..i] == bParts[..i]
    {
      if aParts[i] == bParts[i] {
        sameParts := sameParts + [aParts[i]];
        assert aParts[..i + 1] == aParts[..i] + [aParts[i]];
        assert bParts[..i + 1] == bParts[..i] + [bParts[i]];
      } else {
        break;
      }
      i := i + 1;
    }
    CommonPrefixAt(aParts, bParts, i);
    root := Join(sameParts, sep);
  }

  /** An absolute path of two plain segments splits into the empty root
      segment and the two segments. */
  lemma SplitTwoSegments(dir: string, base: string)
    requires NoSeparator(dir) && NoSeparator(base) && dir != []
    ensures SplitPath("/" + dir + "/" + base) == ["", dir, base]
  {
    SplitPlain(base);
    SplitSegment(dir, base);
    var tail := dir + "/" + base;
    assert tail[0] == dir[0];
    SplitSegment("", tail);
    assert "" + "/" + tail == "/" + dir + "/" + base;
  }

  /** Segments are compared whole: `/foo/ba` and `/foo/bar` share only the
      empty root segment and `foo`, although `ba` is a prefix of `bar`. */
  lemma SegmentWise(dir: string, a: string, b: string)
    requires NoSeparator(dir) && NoSeparator(a) && NoSeparator(b) && dir != [] && a != b
    ensures CommonPrefix(SplitPath("/" + dir + "/" + a), SplitPath("/" + dir + "/" + b)) == ["", dir]
  {
    SplitTwoSegments(dir, a);
    SplitTwoSegments(dir, b);
    var pa, pb: seq<string> := ["", dir, a], ["", dir, b];
    assert pa[..2] == pb[..2];
    CommonPrefixAt(pa, pb, 2);
  }

  // ---------------------------------------------------------------------
  // makeUndefinedProxy

  /** The JavaScript values a metadata object is made of. */
  datatype Value =
    | Undefined
    | Null
    | Bool(b: bool)
    | Num(n: int)
    | Str(s: string)
    | Obj(fields: map<string, Value>)
  {
    predicate IsNullish() { Undefined? || Null? }
  }

  /** A property key: a string, or a symbol told apart by an identity. */
  datatype PropertyKey = StringKey(name: string) | SymbolKey(id: nat)

  /** `target[key]` for a string key: the own field of an object, `undefined`
      for a missing field or a non-object target. */
  function Lookup(target: Value, name: string): (v: Value)
    requires !target.IsNullish()
    ensures target.Obj? && name in target.fields ==> v == target.fields[name]
    ensures !(target.Obj? && name in target.fields) ==> v.Undefined?
  {
    if target.Obj? && name in target.fields then target.fields[name] else Undefined
  }

  /** What the trap does: hand back the target, return a value, or return
      whatever one of the two callbacks returns. */
  datatype GetOutcome =
    | ReturnsTarget
    | Returns(value: Value)
    | CallsOnMissingProp(prop: string, value: Value)
    | CallsOnMissingTarget

  /** The trap as written: it reads `target[prop]` before asking whether the
      target is null, so a nullish target throws a TypeError for every key
      other than `toJSON`, and `onMissingTarget` is never reached. */
  function ProxyGetAsWritten(target: Value, key: PropertyKey): (r: Result<GetOutcome, string>)
    ensures key == StringKey("toJSON") ==> r == Success(ReturnsTarget)
    ensures key != StringKey("toJSON") && target.IsNullish() ==> r.Failure?
    ensures r.Success? ==> !r.value.CallsOnMissingTarget?
  {
    if key == StringKey("toJSON") then Success(ReturnsTarget)
    else if target.IsNullish() then Failure("TypeError: Cannot read properties of " + (if target.Null? then "null" else "undefined"))
    else if key.SymbolKey? then Success(Returns(Undefined))
    else
      var value := Lookup(target, key.name);
      if value.IsNullish() then Success(CallsOnMissingProp(key.name, value)) else Success(Returns(value))
  }

  /** The trap with the null-target check ahead of the read, as evidently
      intended: `toJSON` gives the target, a symbol gives `undefined`, a
      nullish target calls `onMissingTarget`, a nullish value calls
      `onMissingProp(prop, value)`, anything else is returned. */
  function ProxyGet(target: Value, key: PropertyKey): (r: GetOutcome)
    ensures key == StringKey("toJSON") ==> r == ReturnsTarget
    ensures key != StringKey("toJSON") && key.SymbolKey? ==> r == Returns(Undefined)
    ensures key != StringKey("toJSON") && key.StringKey? ==>
      (r == CallsOnMissingTarget <==> target.IsNullish())
    ensures r.CallsOnMissingProp? ==>
      && r.prop == key.name && r.value.IsNullish()
      && !target.IsNullish() && r.value == Lookup(target, key.name)
    ensures r.Returns? && key.StringKey? ==> !r.value.IsNullish()
    ensures key.StringKey? && key.name != "toJSON" && !target.IsNullish() && !Lookup(target, key.name).IsNullish() ==>
      r == Returns(Lookup(target, key.name))
  {
    if key == StringKey("toJSON") then ReturnsTarget
    else if key.SymbolKey? then Returns(Undefined)
    else if target.IsNullish() then CallsOnMissingTarget
    else
      var value := Lookup(target, key.name);
      if value.IsNullish() then CallsOnMissingProp(key.name, value) else Returns(value)
  }

  /** On every target the proxy is built over in practice (an object), the
      two versions agree. */
  lemma ProxyGetAgrees(target: Value, key: PropertyKey)
    requires !target.IsNullish()
    ensures ProxyGetAsWritten(target, key) == Success(ProxyGet(target, key))
  {
  }

  /** The discrepancy: with a null target, reading `title` throws instead of
      calling `onMissingTarget`. */
  lemma ProxyGetNullTargetThrows()
    ensures ProxyGetAsWritten(Null, StringKey("title")).Failure?
    ensures ProxyGet(Null, StringKey("title")) == CallsOnMissingTarget
  {
  }

  /** A string property of an object target is reported missing exactly when
      its value is nullish. */
  lemma ProxyReportsMissing(fields: map<string, Value>, name: string)
    requires name != "toJSON"
    ensures ProxyGet(Obj(fields), StringKey(name)).CallsOnMissingProp?
        <==> (name !in fields || fields[name].IsNullish())
  {
  }
}
