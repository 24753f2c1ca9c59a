/**
 * What the printer writes for one container: the parameters that shape the
 * text, their defaults, and the complete text as a function of the elements.
 */
module Format {
  import opened Text

  /** The keys of the parameter map: separator, beginning and ending. */
  datatype Param = Separator | Begin | End

  /** Written between two consecutive elements unless the caller says otherwise. */
  const DefaultSeparator: string := ", "
  /** Written before the first element unless the caller says otherwise. */
  const DefaultBegin: string := "{"
  /** Written after the last element unless the caller says otherwise; it ends the line. */
  const DefaultEnd: string := "}\n"

  /**
   * The default for each key. None is empty, so a key the caller leaves out
   * never becomes the empty string, and the default end finishes the line.
   */
  function Default(key: Param): (r: string)
    ensures r != []
    ensures key == End ==> r[|r| - 1] == '\n'
  {
    match key
    case Separator => DefaultSeparator
    case Begin => DefaultBegin
    case End => DefaultEnd
  }

  /** The value the map gives for a key, or that key's default when the map has none. */
  function Lookup(params: map<Param, string>, key: Param): string
  {
    if key in params then params[key] else Default(key)
  }

  /** Each element rendered, in iteration order. */
  function RenderAll<T>(c: seq<T>, render: T -> string): seq<string>
  {
    seq(|c|, i requires 0 <= i < |c| => render(c[i]))
  }

  /**
   * The whole text one call writes: begin, the rendered elements joined by
   * sep, end. For no elements it is begin + end, whatever the renderer.
   */
  function Formatted<T>(c: seq<T>, render: T -> string, sep: string, begin: string, end: string): (r: string)
    ensures c == [] ==> r == begin + end
  {
    begin + Join(RenderAll(c, render), sep) + end
  }

  /**
   * A map that names a key overrides that key alone: the value given is used
   * for it, and every other key keeps what it had (its default when the map
   * was empty).
   */
  lemma OverrideOneKey(params: map<Param, string>, key: Param, value: string, other: Param)
    requires other != key
    ensures Lookup(params[key := value], key) == value
    ensures Lookup(params[key := value], other) == Lookup(params, other)
  {
  }

  /** An empty map gives exactly the three defaults. */
  lemma EmptyMapGivesDefaults()
    ensures Lookup(map[], Separator) == ", "
    ensures Lookup(map[], Begin) == "{"
    ensures Lookup(map[], End) == "}\n"
  {
  }

  /**
   * Worked cases with elements that are already text, rendered as they are
   * or wrapped in angle brackets. The default end string carries a newline.
   */
  lemma WorkedExamples()
    ensures Formatted([], (x: string) => x, DefaultSeparator, DefaultBegin, DefaultEnd) == "{}\n"
    ensures Formatted(["5"], (x: string) => x, DefaultSeparator, DefaultBegin, DefaultEnd) == "{5}\n"
    ensures Formatted(["1", "2", "3"], (x: string) => x, DefaultSeparator, DefaultBegin, DefaultEnd)
            == "{1, 2, 3}\n"
    ensures Formatted(["1", "2", "3"], (x: string) => x, "\n", "[", "]") == "[1\n2\n3]"
    ensures Formatted(["1", "2"], (x: string) => "<" + x + ">", DefaultSeparator, DefaultBegin, DefaultEnd)
            == "{<1>, <2>}\n"
  {
    var id := (x: string) => x;
    var nums := ["1", "2", "3"];
    assert RenderAll(nums, id) == nums;
    assert JoinFirst(nums, ", ", 2) == "1, 2";
    assert JoinFirst(nums, ", ", 3) == "1, 2, 3";
    assert JoinFirst(nums, "\n", 2) == "1\n2";
    assert JoinFirst(nums, "\n", 3) == "1\n2\n3";
    var wrap := (x: string) => "<" + x + ">";
    var wrapped := ["<1>", "<2>"];
    assert wrap("1") == "<1>" && wrap("2") == "<2>";
    assert RenderAll(["1", "2"], wrap) == wrapped;
    assert JoinFirst(wrapped, ", ", 2) == "<1>, <2>";
  }

  /**
   * The frame of the text: it starts with begin and ends with end, and in
   * between holds the rendered elements and one separator fewer than there
   * are elements.
   */
  lemma FormattedFrame<T>(c: seq<T>, render: T -> string, sep: string, begin: string, end: string)
    ensures var r := Formatted(c, render, sep, begin, end);
      && |r| >= |begin| + |end|
      && r[..|begin|] == begin
      && r[|r| - |end|..] == end
    ensures c != [] ==> |Formatted(c, render, sep, begin, end)|
                        == |begin| + PrefixLength(RenderAll(c, render), |c|) + (|c| - 1) * |sep| + |end|
  {
    var j := Join(RenderAll(c, render), sep);
    var bj := begin + j;
    var r := bj + end;
    assert r == Formatted(c, render, sep, begin, end);
    if c != [] {
      JoinLength(RenderAll(c, render), sep, |c|);
    }
    SliceOfLeft(bj, end, 0, |begin|);
    SliceOfLeft(begin, j, 0, |begin|);
    assert begin[0..|begin|] == begin;
    assert r[..|begin|] == r[0..|begin|];
    SliceOfRight(bj, end, |bj|, |r|);
    assert end[0..|end|] == end;
    assert r[|r| - |end|..] == r[|bj|..|r|];
  }

  /**
   * Element i appears exactly once, rendered, at the position that follows
   * begin and everything written for the elements before it; then comes one
   * separator if another element follows, and otherwise the end string and
   * nothing else.
   */
  lemma ElementPlacement<T>(c: seq<T>, render: T -> string, sep: string, begin: string, end: string, i: nat)
    requires i < |c|
    ensures var r := Formatted(c, render, sep, begin, end);
      var at := |begin| + Offset(RenderAll(c, render), sep, i);
      var after := at + |render(c[i])|;
      && after <= |r|
      && r[at..after] == render(c[i])
      && (i + 1 < |c| ==> after + |sep| <= |r| && r[after..after + |sep|] == sep)
      && (i + 1 == |c| ==> r[after..] == end)
  {
    var parts := RenderAll(c, render);
    assert parts[i] == render(c[i]);
    FramedPiece(begin, parts, sep, end, i);
    FramedFollower(begin, parts, sep, end, i);
  }
}
