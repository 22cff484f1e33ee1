/** Logger (fr.jazer.logger.Logger): per-class loggers writing an [OUT] channel,
    which a list of class names can silence, and an [ERR] channel, which nothing
    silences. Both print the class name centred in a 30-character column. The date,
    the rest of the line layout and the console are not modelled: a written line is
    represented by its class-name column. */
module Logging {
  import opened Common

  /** The class names whose [OUT] channel is silenced from the start. */
  const DefaultDisabledOutPut: seq<string> := ["ThreadPool", "SessionServer", "fr.jazer.session.Session"]

  /** Width of the class-name column of a log line. */
  const ClassNameWidth: int := 30

  /** `r` is `s` centred in `size` characters with `pad`: (size - |s|) / 2 pads,
      then `s`, then pads up to `size`. */
  ghost predicate IsCentered(r: string, s: string, size: int, pad: char)
  {
    var left := (size - |s|) / 2;
    0 <= left && left + |s| <= size &&
    |r| == size &&
    (forall k :: 0 <= k < left ==> r[k] == pad) &&
    r[left..left + |s|] == s &&
    (forall k :: left + |s| <= k < size ==> r[k] == pad)
  }

  /** There is one centred string for given text, size and pad. */
  lemma CenteredUnique(r1: string, r2: string, s: string, size: int, pad: char)
    requires IsCentered(r1, s, size, pad) && IsCentered(r2, s, size, pad)
    ensures r1 == r2
  {
    var left := (size - |s|) / 2;
    forall k | 0 <= k < size
      ensures r1[k] == r2[k]
    {
      if left <= k < left + |s| {
        assert r1[k] == r1[left..left + |s|][k - left];
        assert r2[k] == r2[left..left + |s|][k - left];
      }
    }
  }

  /** The right padding of a centred string equals the left one or exceeds it by one. */
  lemma CenteredPaddingBalanced(r: string, s: string, size: int, pad: char)
    requires IsCentered(r, s, size, pad)
    ensures var left := (size - |s|) / 2;
            left <= |r| - left - |s| <= left + 1
  {
  }

  /** `StringUtils.center(s, size, pad)`. A null text, or one at least `size` long,
      is returned as it is; otherwise the result is `s` centred in `size` characters. */
  method Center(s: Option<string>, size: int, pad: char) returns (r: Option<string>)
    ensures s.None? ==> r == None
    ensures s.Some? && size <= |s.value| ==> r == s
    ensures s.Some? && size > |s.value| ==> r.Some? && IsCentered(r.value, s.value, size, pad)
  {
    if s.None? || size <= |s.value| {
      return s;
    }
    var text := s.value;
    var sb: string := [];
    var i := 0;
    while i < (size - |text|) / 2
      invariant 0 <= i <= (size - |text|) / 2
      invariant |sb| == i
      invariant forall k :: 0 <= k < i ==> sb[k] == pad
    {
      sb := sb + [pad];
      i := i + 1;
    }
    ghost var left := |sb|;
    sb := sb + text;
    while |sb| < size
      invariant left + |text| <= |sb| <= size
      invariant forall k :: 0 <= k < left ==> sb[k] == pad
      invariant sb[left..left + |text|] == text
      invariant forall k :: left + |text| <= k < |sb| ==> sb[k] == pad
      decreases size - |sb|
    {
      sb := sb + [pad];
    }
    r := Some(sb);
  }

  /** `StringUtils.center(s, size)`: centring with spaces. */
  method CenterWithSpaces(s: Option<string>, size: int) returns (r: Option<string>)
    ensures s.None? ==> r == None
    ensures s.Some? && size <= |s.value| ==> r == s
    ensures s.Some? && size > |s.value| ==> r.Some? && IsCentered(r.value, s.value, size, ' ')
  {
    r := Center(s, size, ' ');
  }

  /** The column a log line shows for `className`: the name centred in 30 characters
      with spaces, or the name itself when it does not fit. */
  ghost predicate IsClassNameColumn(column: string, className: string)
  {
    if |className| >= ClassNameWidth then column == className
    else IsCentered(column, className, ClassNameWidth, ' ')
  }

  class Logger {
    const className: string
    const hasObject: bool

    /** `loggerOfStatic` (named by the class's simple name, no object) and
        `loggerOfObject` (named by its canonical class name, with the object). */
    constructor (className: string, hasObject: bool)
      ensures this.className == className && this.hasObject == hasObject
    {
      this.className := className;
      this.hasObject := hasObject;
    }

    /** `log(message)`: writes nothing when the logger's class name is in
        `disabledOutPut`, a line otherwise. Returns the class-name column of the
        line written, if any. */
    method Log(message: string, disabledOutPut: seq<string>) returns (column: Option<string>)
      ensures column.None? <==> className in disabledOutPut
      ensures column.Some? ==> IsClassNameColumn(column.value, className)
    {
      if className in disabledOutPut {
        return None;
      }
      column := CenterWithSpaces(Some(className), ClassNameWidth);
    }

    /** `err(message)`: always writes a line; the silencing list is not consulted. */
    method Err(message: string) returns (column: Option<string>)
      ensures column.Some? && IsClassNameColumn(column.value, className)
    {
      column := CenterWithSpaces(Some(className), ClassNameWidth);
    }
  }
}
