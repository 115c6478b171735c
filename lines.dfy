/** Text assembled line by line, as the source's `push_str` builders do: a left fold
    that appends one line at a time, and what can be read off the result. */
module Lines {
  import opened Text

  /** The text of `lines` appended to `t` one after the other; each line carries
      its own terminator. */
  function RenderOnto(t: string, lines: seq<string>): string
  {
    if |lines| == 0 then t else RenderOnto(t, lines[..|lines| - 1]) + lines[|lines| - 1]
  }

  function Render(lines: seq<string>): string
  {
    RenderOnto("", lines)
  }

  lemma RenderOntoSnoc(t: string, lines: seq<string>, l: string)
    ensures RenderOnto(t, lines + [l]) == RenderOnto(t, lines) + l
  {
    assert (lines + [l])[..|lines|] == lines;
  }

  lemma {:induction false} RenderOntoAppend(t: string, a: seq<string>, b: seq<string>)
    ensures RenderOnto(t, a + b) == RenderOnto(RenderOnto(t, a), b)
    decreases |b|
  {
    if |b| == 0 {
      assert a + b == a;
    } else {
      var b' := b[..|b| - 1];
      assert a + b == (a + b') + [b[|b| - 1]];
      RenderOntoAppend(t, a, b');
      RenderOntoSnoc(t, a + b', b[|b| - 1]);
    }
  }

  /** Every line occurs in the rendered text. */
  lemma {:induction false} RenderContainsLine(t: string, lines: seq<string>, k: nat)
    requires k < |lines|
    ensures Contains(RenderOnto(t, lines), lines[k])
  {
    var init := lines[..|lines| - 1];
    if k == |lines| - 1 {
      assert OccursAt(RenderOnto(t, lines), lines[k], |RenderOnto(t, init)|);
    } else {
      assert init[k] == lines[k];
      RenderContainsLine(t, init, k);
      var p :| OccursAt(RenderOnto(t, init), lines[k], p);
      assert RenderOnto(t, lines)[p..p + |lines[k]|] == RenderOnto(t, init)[p..p + |lines[k]|];
      assert OccursAt(RenderOnto(t, lines), lines[k], p);
    }
  }

  /** The rendered text begins with the rendered text of any prefix of the lines. */
  lemma {:induction false} RenderPrefix(t: string, lines: seq<string>, k: nat)
    requires k <= |lines|
    ensures StartsWith(RenderOnto(t, lines), RenderOnto(t, lines[..k]))
    decreases |lines|
  {
    if k < |lines| {
      var init := lines[..|lines| - 1];
      assert init[..k] == lines[..k];
      RenderPrefix(t, init, k);
    } else {
      assert lines[..k] == lines;
    }
  }

}
