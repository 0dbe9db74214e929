/** Gathering a streamed model reply into one string, as both the challenge service and
    the verification service do with the chunks the model yields. */
module Streaming {
  import opened Json
  import opened Text

  /** A chunk of a streamed reply: normally text, occasionally some other value. */
  datatype Chunk = TextChunk(text: string) | ValueChunk(value: Json)

  /** What one chunk contributes: its text, or `str()` of any other value. */
  function ChunkText(c: Chunk): string {
    match c
    case TextChunk(t) => t
    case ValueChunk(v) => PyStr(v)
  }

  /** The chunks' texts, concatenated in order. */
  function Collected(chunks: seq<Chunk>): string {
    if chunks == [] then [] else Collected(chunks[..|chunks| - 1]) + ChunkText(chunks[|chunks| - 1])
  }

  /** Collecting two runs of chunks one after the other gives the two texts joined. */
  lemma {:induction false} CollectedAppend(a: seq<Chunk>, b: seq<Chunk>)
    ensures Collected(a + b) == Collected(a) + Collected(b)
    decreases |b|
  {
    if b == [] {
      assert a + b == a;
    } else {
      var last := b[|b| - 1];
      var init := b[..|b| - 1];
      assert (a + b)[..|a + b| - 1] == a + init;
      assert (a + b)[|a + b| - 1] == last;
      CollectedAppend(a, init);
      assert Collected(a + b) == Collected(a + init) + ChunkText(last);
      assert Collected(b) == Collected(init) + ChunkText(last);
      AppendAssoc(Collected(a), Collected(init), ChunkText(last));
    }
  }

  /** The collecting loop: appends each chunk's text in turn. */
  method CollectResponse(chunks: seq<Chunk>) returns (response: string)
    ensures response == Collected(chunks)
  {
    response := "";
    for i := 0 to |chunks|
      invariant response == Collected(chunks[..i])
    {
      assert chunks[..i + 1][..i] == chunks[..i];
      match chunks[i]
      case TextChunk(t) =>
        response := response + t;
      case ValueChunk(v) =>
        response := response + PyStr(v);
    }
    assert chunks[..|chunks|] == chunks;
  }
}
