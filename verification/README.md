# PrettySTL container printer, modelled in Dafny

`Pretty::Stl` prints the contents of a container to an output stream in a
bracketed, separated form such as `{1, 2, 3}`. A printer object holds a
pointer to the stream it writes to and an optional element-to-text function.
`print` writes the begin string, then each element through that function with
the separator between consecutive elements (none after the last), then the end
string. `printBuiltIn` does the same with the stream's own text conversion of
each element. Both have overloads that take the three strings from a map keyed
by `Params` (separator, begin, end), falling back to `", "`, `"{"` and `"}\n"`
for missing keys. `operator<<` is `print` with all three defaults and returns
the stream.

The model has three modules:

- `Text` (`text.dfy`): joining rendered pieces with a separator.
  `JoinFirst` joins the first k pieces from the back, the way the printing
  loop extends its output, and `Join` joins them all. `Offset` says where each
  piece lands. The lemmas give the joined length, the place of every piece,
  the single separator between neighbours, the absence of a trailing
  separator, and the reading of the same text from the front.
- `Format` (`format.dfy`): the `Param` keys, the three defaults, `Lookup` with
  its fallback, and `Formatted`, the full text one call writes. Its lemmas
  state the frame (begin first, end last), the placement of every element,
  and the overriding of single keys.
- `Pretty` (`pretty.dfy`): the stream as a `Sink` object holding the text
  written so far, and the printer as the class `Stl<T>` with the fields `out`
  and `convert`. The constructors and setters overwrite these fields. `Print`
  and `PrintBuiltIn` append to `out.text` in a loop with the
  increment-then-compare separator step of the original, proved against
  `Formatted`. `PrintBuiltIn` and `PrintBuiltInParams` are generic in their
  own element type `U`: like the member templates of the original, they print
  containers of any element type, not only the printer's `T`.

The stream is a reference: several printers may share one `Sink`, and
`SetOutVariable` redirects a printer to another. The default binding to
standard output becomes an explicit argument: the caller passes the `Sink`
that stands for standard output. The constructor that takes only an element
function is `WithConverter` given that stream.

The default end string is `"}\n"` in the code (`pretty_stl.hpp:158-161`), so
the model ends default output with a newline; `Format.WorkedExamples` shows
the resulting texts (`"{1, 2, 3}\n"`, `"{}\n"`).

## Model

| member | source | states |
|---|---|---|
| Text.Join | pretty_stl.hpp:96-101 | a container with no elements contributes no text between begin and end, and a single element is written alone, with no separator |
| Text.JoinStep | pretty_stl.hpp:97-100 | the loop writes an element and then, if another element follows, a separator; regrouped with that pending separator, one iteration turns the text joined so far into the join of one more element: the joined prefix, one separator unless this is the first element, then the next rendered element |
| Text.JoinLength | pretty_stl.hpp:96-101 | for n ≥ 1 rendered elements the joined text is as long as the elements together plus exactly n − 1 separators |
| Text.JoinEndsAtLastPiece | pretty_stl.hpp:98-101 | the joined text ends exactly where the last element ends: no separator follows the last element |
| Text.JoinSplit | pretty_stl.hpp:96-101 | the text joined after m elements is a prefix of the text joined after any later number k, followed by the separator-led elements m .. k − 1: later iterations only append |
| Text.JoinPiece | pretty_stl.hpp:96-101 | element i sits at its offset, which is the length of all earlier elements plus one separator each |
| Text.JoinGap | pretty_stl.hpp:98-100 | exactly one separator lies between element i and element i + 1 |
| Text.JoinFirstFromFront | pretty_stl.hpp:96-101 | the first k ≥ 2 elements joined read from the front as the first element, a separator, and the join of the following k − 1 |
| Text.JoinFromFront | pretty_stl.hpp:96-101 | the loop's output read from the front: first element, separator, then the join of the rest, for two or more elements |
| Format.Default | pretty_stl.hpp:158-161 | no default string is empty, and the default end finishes the line with a newline |
| Format.Formatted | pretty_stl.hpp:94-103 | the text one call writes: begin, the rendered elements joined by the separator, end; for an empty container exactly begin + end, whatever the element function |
| Format.FormattedFrame | pretty_stl.hpp:94-103 | the written text starts with begin and ends with end; for an empty container it is exactly begin + end, whatever the renderer; otherwise its length is begin, the elements, n − 1 separators and end |
| Format.ElementPlacement | pretty_stl.hpp:94-103 | each element appears rendered once at its position after begin, followed by one separator if another element follows, and otherwise by the end string and nothing else |
| Format.OverrideOneKey | pretty_stl.hpp:114-116 | a key present in the map takes the map's value, and giving one key leaves the value of every other key as it was; printBuiltIn makes the same map-or-default choice at `pretty_stl.hpp:151-153` |
| Format.EmptyMapGivesDefaults | pretty_stl.hpp:158-161 | with no keys given, separator, begin and end are `", "`, `"{"` and `"}\n"` |
| Format.WorkedExamples | pretty_stl.hpp:158-161 | with string elements rendered by the identity function, the defaults turn `[]`, `["5"]` and `["1", "2", "3"]` into `"{}\n"`, `"{5}\n"` and `"{1, 2, 3}\n"`; separator `"\n"`, begin `"["` and end `"]"` turn `["1", "2", "3"]` into `"[1\n2\n3]"`; a renderer wrapping each string in angle brackets turns `["1", "2"]` into `"{<1>, <2>}\n"` |
| Pretty.Stl.constructor | pretty_stl.hpp:37-38 | a printer on the given stream with no element function |
| Pretty.Stl.WithConverter | pretty_stl.hpp:43-53 | a printer on the given stream holding the given element function |
| Pretty.Stl.SetOutVariable | pretty_stl.hpp:57-59 | changes the stream and leaves the element function unchanged |
| Pretty.Stl.SetElementConvertFunction | pretty_stl.hpp:64-66 | changes the element function and leaves the stream unchanged |
| Pretty.Stl.F | pretty_stl.hpp:69-71 | the same effect as SetElementConvertFunction: only the element function changes |
| Pretty.Stl.Print | pretty_stl.hpp:89-104 | requires an element function when the container is non-empty; the stream afterwards holds its old text followed by begin + join(rendered elements, sep) + end, and an empty container adds exactly begin + end |
| Pretty.Stl.PrintParams | pretty_stl.hpp:111-117 | as Print, with separator, begin and end each taken from the map when present and from the default otherwise |
| Pretty.Stl.PrintBuiltIn | pretty_stl.hpp:126-141 | the stream afterwards holds its old text followed by begin + join(elements in their native text form, sep) + end; no element function is needed |
| Pretty.Stl.PrintBuiltInParams | pretty_stl.hpp:148-155 | as PrintBuiltIn, with each of the three strings taken from the map when present and from the default otherwise |
| Pretty.Stl.Insert | pretty_stl.hpp:76-81 | appends exactly what Print with all three defaults appends and returns the stream it wrote to |

## Left out

- Real stream I/O: the stream is an append-only text buffer. Flushing, stream error states and failed writes are not modelled.
- The stream's own text conversion of built-in element types (`*out << *iter`, line 134) is library formatting, including number formatting; `PrintBuiltIn` takes it as a function parameter `show`.
- The type-erased element function (`void const*` argument and raw function pointer, lines 11 and 97): the printer is generic in the element type `T` and holds an `Option<T -> string>`, with `None` for the null pointer.
- Element functions and the stream's conversion are modelled as total, pure functions `T -> string`. The C++ function pointer may throw, leaving the begin string and the elements before it already written, or may itself write to the same stream between the printer's writes; neither is modelled.
- Calling a null element function is undefined behaviour in the code; the model makes a set element function a precondition of `Print`, `PrintParams` and `Insert` for non-empty containers.
- Templates and iterators: containers are sequences in iteration order. The hashing of `std::unordered_map` is not modelled; the parameter map is a `map<Param, string>`.
- Overloading: the map overloads are named `PrintParams` and `PrintBuiltInParams`, and `operator<<` is `Insert`.
- The default binding of the stream to standard output: the caller supplies the stream.
- Include guards, the namespace and static storage of the defaults (constants here).
