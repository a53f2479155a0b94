/**
 * The text layout shared by every extractor that walks a document part by
 * part: each part is appended as a header line, the part's text, and a blank
 * line (`${header}\n${body}\n\n`).
 */
module Layout {
  import opened Strings

  datatype Block = Block(header: string, body: string)

  function BlockText(b: Block): string {
    b.header + "\n" + b.body + "\n\n"
  }

  /** The accumulator after appending the blocks one after another, starting from "". */
  function Render(blocks: seq<Block>): string {
    if blocks == [] then "" else Render(blocks[..|blocks| - 1]) + BlockText(blocks[|blocks| - 1])
  }

  /** Rendering distributes over concatenation: the text of a prefix of the parts is a prefix of the text. */
  lemma {:induction false} RenderAppend(a: seq<Block>, b: seq<Block>)
    ensures Render(a + b) == Render(a) + Render(b)
  {
    if b == [] {
      assert a + b == a;
    } else {
      var init, last := b[..|b| - 1], b[|b| - 1];
      assert b == init + [last];
      assert a + b == (a + init) + [last];
      calc {
        Render(a + b);
        { RenderSnoc(a + init, last); }
        Render(a + init) + BlockText(last);
        { RenderAppend(a, init); }
        Render(a) + Render(init) + BlockText(last);
        { RenderSnoc(init, last); }
        Render(a) + Render(b);
      }
    }
  }

  /** Appending one block appends its text. */
  lemma RenderSnoc(blocks: seq<Block>, b: Block)
    ensures Render(blocks + [b]) == Render(blocks) + BlockText(b)
  {
    assert (blocks + [b])[..|blocks|] == blocks;
  }

  /** Appending a numbered header's pieces, then the body, appends the block's text. */
  lemma AppendNumberedBlock(acc: string, tag: string, num: string, body: string)
    ensures acc + tag + num + "\n" + body + "\n\n" == acc + BlockText(Block(tag + num, body))
  {
  }

  /** The text of the first k blocks is a prefix of the text of all of them. */
  lemma RenderPrefix(blocks: seq<Block>, k: nat)
    requires k <= |blocks|
    ensures StartsWith(Render(blocks), Render(blocks[..k]))
  {
    assert blocks == blocks[..k] + blocks[k..];
    RenderAppend(blocks[..k], blocks[k..]);
  }

  /** A non-empty rendering opens with the first block's text. */
  lemma RenderFirst(blocks: seq<Block>)
    requires blocks != []
    ensures StartsWith(Render(blocks), BlockText(blocks[0]))
  {
    RenderPrefix(blocks, 1);
    var one := blocks[..1];
    assert one[..0] == [];
    assert Render(one) == BlockText(blocks[0]);
  }

  /** Once any block carries a visible header, the rendered text is not blank. */
  lemma {:induction false} RenderVisibleHeader(blocks: seq<Block>, k: nat)
    requires k < |blocks| && !IsBlank(blocks[k].header)
    ensures !IsBlank(Render(blocks))
  {
    var n := |blocks|;
    var init, last := blocks[..n - 1], blocks[n - 1];
    assert Render(blocks) == Render(init) + BlockText(last);
    if k == n - 1 {
      var j :| 0 <= j < |last.header| && !IsWhitespace(last.header[j]);
      assert BlockText(last)[j] == last.header[j];
      assert Render(blocks)[|Render(init)| + j] == last.header[j];
    } else {
      assert init[k] == blocks[k];
      RenderVisibleHeader(init, k);
      var j :| 0 <= j < |Render(init)| && !IsWhitespace(Render(init)[j]);
      assert Render(blocks)[j] == Render(init)[j];
    }
  }

  /** A page's text: the `str` of its text items joined by single spaces. */
  function PageText(items: seq<string>): string {
    Join(items, " ")
  }
}
