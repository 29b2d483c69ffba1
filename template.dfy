/**
 * std::format with a fixed format string: a leading literal, then holes each followed by
 * a literal. Read takes a rendered string apart again along the same layout, which is
 * what shows that the C++ JSON builders, which escape nothing, still produce readable
 * output as long as no field contains the character that ends its hole.
 */
module Template {
  import opened Wrappers
  import Text

  /** `head {} seps[0] {} seps[1] ...`: one hole before each separator. */
  datatype Layout = Layout(head: string, seps: seq<string>)

  function Fill(seps: seq<string>, args: seq<string>): string
    requires |args| == |seps|
  {
    if seps == [] then "" else args[0] + seps[0] + Fill(seps[1..], args[1..])
  }

  /** The format string with each hole replaced by the next argument. */
  function Render(layout: Layout, args: seq<string>): string
    requires |args| == |layout.seps|
  {
    layout.head + Fill(layout.seps, args)
  }

  /** Each hole runs up to the first character of the separator after it. */
  function ReadHoles(seps: seq<string>, s: string): Option<seq<string>>
    decreases |seps|
  {
    if seps == [] then (if s == [] then Some([]) else None)
    else if seps[0] == [] then None
    else match Text.CharIndex(s, seps[0][0])
      case None => None
      case Some(k) =>
        if !(seps[0] <= s[k..]) then None
        else match ReadHoles(seps[1..], s[k + |seps[0]|..])
          case None => None
          case Some(rest) => Some([s[..k]] + rest)
  }

  /** The literals must appear verbatim; the holes are what lies between them. */
  function Read(layout: Layout, s: string): Option<seq<string>> {
    if layout.head <= s then ReadHoles(layout.seps, s[|layout.head|..]) else None
  }

  /** No argument contains the first character of the separator that follows its hole. */
  predicate Fits(layout: Layout, args: seq<string>)
    requires |args| == |layout.seps|
  {
    forall k :: 0 <= k < |args| ==> layout.seps[k] != [] && layout.seps[k][0] !in args[k]
  }

  /** One hole: when its text avoids the separator's first character, it is read off whole. */
  lemma ReadHolesStep(seps: seq<string>, a: string, rest: string)
    requires seps != [] && seps[0] != [] && seps[0][0] !in a
    ensures ReadHoles(seps, a + seps[0] + rest) ==
      match ReadHoles(seps[1..], rest) case None => None case Some(more) => Some([a] + more)
  {
    var sep := seps[0];
    var s := a + sep + rest;
    assert s == a + [sep[0]] + (sep[1..] + rest);
    Text.CharIndexAfter(a, sep[0], sep[1..] + rest);
    assert s[|a|..] == sep + rest;
    assert s[|a| + |sep|..] == rest;
    assert s[..|a|] == a;
  }

  lemma {:induction false} ReadFill(seps: seq<string>, args: seq<string>)
    requires |args| == |seps|
    requires forall k :: 0 <= k < |args| ==> seps[k] != [] && seps[k][0] !in args[k]
    ensures ReadHoles(seps, Fill(seps, args)) == Some(args)
    decreases |seps|
  {
    if seps != [] {
      ReadHolesStep(seps, args[0], Fill(seps[1..], args[1..]));
      ReadFill(seps[1..], args[1..]);
      assert [args[0]] + args[1..] == args;
    }
  }

  /** Rendering and reading back along the same layout returns the arguments. */
  lemma ReadRender(layout: Layout, args: seq<string>)
    requires |args| == |layout.seps| && Fits(layout, args)
    ensures Read(layout, Render(layout, args)) == Some(args)
  {
    var s := Render(layout, args);
    assert s[|layout.head|..] == Fill(layout.seps, args);
    ReadFill(layout.seps, args);
  }
}
