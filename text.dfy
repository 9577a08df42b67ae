/** Joining strings with a separator, the way the assemblers print lists. */
module Text {
  /** `items` with `sep` between neighbours; defined from the end, as a loop appends. */
  function Join(items: seq<string>, sep: string): string
  {
    if |items| == 0 then ""
    else if |items| == 1 then items[0]
    else Join(items[..|items| - 1], sep) + sep + items[|items| - 1]
  }

  /** Appending one more item to a joined list. */
  lemma JoinSnoc(items: seq<string>, x: string, sep: string)
    ensures Join(items + [x], sep) == if items == [] then x else Join(items, sep) + sep + x
  {
    assert (items + [x])[..|items|] == items;
  }

  /** The strings one after another; defined from the end, as a loop appends. */
  function Concat(parts: seq<string>): string {
    if parts == [] then "" else Concat(parts[..|parts| - 1]) + parts[|parts| - 1]
  }

  /** Appending one more string to a concatenation. */
  lemma ConcatSnoc(parts: seq<string>, x: string)
    ensures Concat(parts + [x]) == Concat(parts) + x
  {
    assert (parts + [x])[..|parts|] == parts;
  }

  /**
   * Writing `parts` after `out0` the way the program's formatters do: `sep`
   * before every part but the first.
   */
  method AppendJoined(out0: string, parts: seq<string>, sep: string) returns (out: string)
    ensures out == out0 + Join(parts, sep)
  {
    out := out0;
    var i := 0;
    while i < |parts|
      invariant 0 <= i <= |parts|
      invariant out == out0 + Join(parts[..i], sep)
    {
      if i > 0 {
        out := out + sep;
      }
      out := out + parts[i];
      assert parts[..i + 1] == parts[..i] + [parts[i]];
      JoinSnoc(parts[..i], parts[i], sep);
      i := i + 1;
    }
    assert parts[..i] == parts;
  }

  /** Writing `parts` after `out0`, one after another. */
  method AppendAll(out0: string, parts: seq<string>) returns (out: string)
    ensures out == out0 + Concat(parts)
  {
    out := out0;
    var i := 0;
    while i < |parts|
      invariant 0 <= i <= |parts|
      invariant out == out0 + Concat(parts[..i])
    {
      out := out + parts[i];
      assert parts[..i + 1] == parts[..i] + [parts[i]];
      ConcatSnoc(parts[..i], parts[i]);
      i := i + 1;
    }
    assert parts[..i] == parts;
  }

  /** The decimal digits of `n`, most significant first, as Rust's `{}` prints it. */
  function NatText(n: nat): (s: string)
    ensures |s| > 0 && forall i :: 0 <= i < |s| ==> '0' <= s[i] <= '9'
    decreases n
  {
    var digit := ['0' + (n % 10) as char];
    if n < 10 then digit else NatText(n / 10) + digit
  }

  /** A signed integer in decimal, with a leading `-` when negative. */
  function IntText(i: int): (s: string)
    ensures |s| > 0 && (s[0] == '-' <==> i < 0)
  {
    if i < 0 then "-" + NatText(-i) else NatText(i)
  }
}
