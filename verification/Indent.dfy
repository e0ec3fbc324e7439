/** Embedding a text under a YAML key: `indent` of the datapath reconciler. */
module Indent {
  import opened Text

  const NL := '\n'

  /** The output for the given lines. */
  function Block(lines: seq<string>, pad: string): string {
    if |lines| == 0 then ""
    else (if lines[0] == "" then [NL] else pad + lines[0] + [NL]) + Block(lines[1..], pad)
  }

  /** What a reader of the block makes of one line: the pad goes, an empty line stays empty. */
  function Stripped(line: string, pad: string): string {
    if pad <= line then line[|pad|..] else line
  }

  function StrippedAll(lines: seq<string>, pad: string): (r: seq<string>)
    ensures |r| == |lines|
  {
    seq(|lines|, i requires 0 <= i < |lines| => Stripped(lines[i], pad))
  }

  function Padded(line: string, pad: string): string {
    if line == "" then "" else pad + line
  }

  lemma {:induction false} BlockSplits(lines: seq<string>, pad: string)
    requires NL !in pad && forall l | l in lines :: NL !in l
    ensures Split(Block(lines, pad), NL) == seq(|lines|, i requires 0 <= i < |lines| => Padded(lines[i], pad)) + [""]
  {
    if |lines| > 0 {
      BlockSplits(lines[1..], pad);
      var head, rest := Padded(lines[0], pad), Block(lines[1..], pad);
      assert Block(lines, pad) == head + [NL] + rest;
      SplitHead(head, rest, NL);
    }
  }

  lemma {:induction false} JoinOneMore(parts: seq<string>, sep: char)
    requires |parts| > 0
    ensures Join(parts + [""], sep) == Join(parts, sep) + [sep]
  {
    if |parts| > 1 {
      assert (parts + [""])[1..] == parts[1..] + [""];
      JoinOneMore(parts[1..], sep);
    }
  }

  /**
   * A reader who removes the pad from the lines of the block gets the text back, every line in its place, and one more
   * newline. Every line of the block is empty or starts with the pad.
   */
  lemma BlockKeepsText(text: string, pad: string)
    requires NL !in pad
    ensures var lines := Split(Block(Split(text, NL), pad), NL);
      && Join(StrippedAll(lines, pad), NL) == text + [NL]
      && forall l | l in lines :: l == "" || pad <= l
  {
    var was := Split(text, NL);
    var lines := Split(Block(was, pad), NL);
    BlockSplits(was, pad);
    forall i | 0 <= i < |was| ensures Stripped(lines[i], pad) == was[i] {
      assert lines[i] == Padded(was[i], pad);
    }
    assert StrippedAll(lines, pad) == was + [""];
    JoinOneMore(was, NL);
    JoinSplit(text, NL);
  }

  lemma {:induction false} BlockAppend(lines: seq<string>, line: string, pad: string)
    ensures Block(lines + [line], pad) == Block(lines, pad) + (if line == "" then [NL] else pad + line + [NL])
  {
    if |lines| > 0 {
      assert (lines + [line])[1..] == lines[1..] + [line];
      BlockAppend(lines[1..], line, pad);
    }
  }

  method Indent(s: string, pad: string) returns (b: string)
    ensures b == Block(Split(s, NL), pad)
    ensures NL !in pad ==> Join(StrippedAll(Split(b, NL), pad), NL) == s + [NL]
  {
    var lines := Split(s, NL);
    b := "";
    for i := 0 to |lines|
      invariant b == Block(lines[..i], pad)
    {
      BlockAppend(lines[..i], lines[i], pad);
      assert lines[..i + 1] == lines[..i] + [lines[i]];
      if lines[i] == "" {
        b := b + [NL];
        continue;
      }
      b := b + pad + lines[i] + [NL];
    }
    assert lines[..|lines|] == lines;
    if NL !in pad { BlockKeepsText(s, pad); }
  }
}
