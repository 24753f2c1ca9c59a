/**
 * The container printer: an object that holds the stream it writes to and an
 * optional element-to-text function, and appends a bracketed, separated
 * rendering of a container to that stream.
 */
module Pretty {
  import opened Text
  import opened Format

  datatype Option<T> = None | Some(value: T)

  /**
   * An output stream, seen as the text written to it so far. Writing only
   * ever appends. Printers hold a reference to a stream, so two printers may
   * share one.
   */
  class Sink {
    var text: string

    constructor (initial: string)
      ensures text == initial
    {
      text := initial;
    }
  }

  /**
   * The printer. `out` is the stream it writes to; `convert` is the function
   * that turns an element into text for Print, and is None until one is set.
   */
  class Stl<T> {
    var out: Sink
    var convert: Option<T -> string>

    /** A printer on the given stream, with no element function yet. */
    constructor (out: Sink)
      ensures this.out == out && convert == None
    {
      this.out := out;
      convert := None;
    }

    /** A printer on the given stream with the given element function. */
    constructor WithConverter(out: Sink, convert: Option<T -> string>)
      ensures this.out == out && this.convert == convert
    {
      this.out := out;
      this.convert := convert;
    }

    /** Redirects the printer to another stream; the element function stays. */
    method SetOutVariable(out: Sink)
      modifies this`out
      ensures this.out == out && convert == old(convert)
    {
      this.out := out;
    }

    /** Replaces the element function; the stream stays. */
    method SetElementConvertFunction(f: Option<T -> string>)
      modifies this`convert
      ensures convert == f && out == old(out)
    {
      convert := f;
    }

    /** The short name of SetElementConvertFunction, with the same effect. */
    method F(f: Option<T -> string>)
      modifies this`convert
      ensures convert == f && out == old(out)
    {
      SetElementConvertFunction(f);
    }

    /**
     * Appends begin, each element through the element function with sep
     * between consecutive ones, and end. The element function must be set
     * unless the container is empty, in which case it is never called.
     */
    method Print(c: seq<T>, sep: string := DefaultSeparator, begin: string := DefaultBegin,
                 end: string := DefaultEnd)
      requires c != [] ==> convert.Some?
      modifies out
      ensures c == [] ==> out.text == old(out.text) + begin + end
      ensures c != [] ==> out.text == old(out.text) + Formatted(c, convert.value, sep, begin, end)
    {
      ghost var render: T -> string := if c == [] then (x: T) => "" else convert.value;
      ghost var parts := RenderAll(c, render);
      out.text := out.text + begin;
      ghost var written := out.text;
      var i := 0;
      while i < |c|
        invariant 0 <= i <= |c|
        invariant c != [] ==> convert == Some(render)
        invariant out.text == written + JoinFirst(parts, sep, i) + (if 0 < i < |c| then sep else "")
      {
        var piece := convert.value(c[i]);
        assert piece == parts[i];
        JoinStep(written, parts, sep, i);
        out.text := out.text + piece;
        i := i + 1;
        if i < |c| {
          out.text := out.text + sep;
        }
      }
      out.text := out.text + end;
      assert out.text == old(out.text) + begin + Join(parts, sep) + end;
    }

    /** Print with separator, begin and end taken from the map, each defaulting when absent. */
    method PrintParams(c: seq<T>, params: map<Param, string>)
      requires c != [] ==> convert.Some?
      modifies out
      ensures c == [] ==> out.text == old(out.text) + Lookup(params, Begin) + Lookup(params, End)
      ensures c != [] ==> out.text == old(out.text) + Formatted(c, convert.value, Lookup(params, Separator),
                                                                Lookup(params, Begin), Lookup(params, End))
    {
      Print(c, Lookup(params, Separator), Lookup(params, Begin), Lookup(params, End));
    }

    /**
     * Like Print, but every element is written with the stream's own text
     * conversion for its type, given here as `show`; the element function is
     * not used, so the elements may be of any type, not only the printer's.
     */
    method PrintBuiltIn<U>(c: seq<U>, show: U -> string, sep: string := DefaultSeparator,
                        begin: string := DefaultBegin, end: string := DefaultEnd)
      modifies out
      ensures out.text == old(out.text) + Formatted(c, show, sep, begin, end)
    {
      ghost var parts := RenderAll(c, show);
      out.text := out.text + begin;
      ghost var written := out.text;
      var i := 0;
      while i < |c|
        invariant 0 <= i <= |c|
        invariant out.text == written + JoinFirst(parts, sep, i) + (if 0 < i < |c| then sep else "")
      {
        var piece := show(c[i]);
        assert piece == parts[i];
        JoinStep(written, parts, sep, i);
        out.text := out.text + piece;
        i := i + 1;
        if i < |c| {
          out.text := out.text + sep;
        }
      }
      out.text := out.text + end;
      assert out.text == old(out.text) + begin + Join(parts, sep) + end;
    }

    /** PrintBuiltIn with separator, begin and end taken from the map, each defaulting when absent. */
    method PrintBuiltInParams<U>(c: seq<U>, show: U -> string, params: map<Param, string>)
      modifies out
      ensures out.text == old(out.text) + Formatted(c, show, Lookup(params, Separator),
                                                    Lookup(params, Begin), Lookup(params, End))
    {
      PrintBuiltIn(c, show, Lookup(params, Separator), Lookup(params, Begin), Lookup(params, End));
    }

    /**
     * The stream-insertion operator: Print with all three defaults, handing
     * back the stream written to so that the caller can go on writing.
     */
    method Insert(c: seq<T>) returns (s: Sink)
      requires c != [] ==> convert.Some?
      modifies out
      ensures s == out
      ensures c == [] ==> out.text == old(out.text) + DefaultBegin + DefaultEnd
      ensures c != [] ==> out.text == old(out.text) + Formatted(c, convert.value, DefaultSeparator,
                                                                DefaultBegin, DefaultEnd)
    {
      Print(c);
      s := out;
    }
  }
}
