/**
 The C++ string literals of tools/gen_fsr_hlsl.py: a source text cut into chunks, each escaped into the body of one
 literal, and what a compiler reads back from them (sections 5.13.3 and 5.13.5 of ISO C++17).
 */
module FsrLiterals {
  import opened Prelude

  const CHUNK: nat := 12000
  const LITERAL_CAP: nat := 65535

  datatype LiteralError = NotAscii(c: char)

  // ---------------------------------------------------------------- escaping

  /** Characters a literal holds as they are: printable ASCII, less those that are escaped. */
  predicate Plain(c: char) { ' ' <= c <= '~' && c !in {'\\', '\"', '?'} }

  /** Characters that can be escaped. */
  predicate Escapable(c: char) { Plain(c) || c in {'\\', '\"', '?', '\n', '\r', '\t'} }

  /** The characters one character of the source becomes. */
  /** Printable ASCII, line ends and tabs. */
  lemma EscapableIff(c: char)
    ensures Escapable(c) <==> 0x20 <= c as int <= 0x7E || c as int in {0x0A, 0x0D, 0x09}
  {
  }

  function EscapeOne(c: char): string
    requires Escapable(c)
  {
    if c == '\n' then "\\n"
    else if c == '\r' then ""
    else if c == '\t' then "\\t"
    else if Plain(c) then [c]
    else ['\\', c]
  }

  /** Every character can be escaped. */
  predicate Writable(text: string) { forall i: nat :: i < |text| ==> Escapable(text[i]) }

  predicate AllWritable(chunks: seq<string>) { forall k: nat :: k < |chunks| ==> Writable(chunks[k]) }

  function Escaped(text: string): string
    requires Writable(text)
  {
    if text == "" then "" else EscapeOne(text[0]) + Escaped(text[1..])
  }

  /** The text without its carriage returns. */
  function WithoutReturns(text: string): string {
    if text == "" then ""
    else if text[0] == '\r' then WithoutReturns(text[1..])
    else [text[0]] + WithoutReturns(text[1..])
  }

  lemma {:induction false} EscapedStep(text: string, n: nat)
    requires n < |text| && Writable(text[..n + 1])
    ensures Writable(text[..n])
    ensures Escapable(text[n]) && Escaped(text[..n + 1]) == Escaped(text[..n]) + EscapeOne(text[n])
  {
    assert text[..n + 1] == text[..n] + [text[n]];
    EscapedConcat(text[..n], [text[n]]);
    assert Escaped([text[n]]) == EscapeOne(text[n]) + "";
  }

  lemma {:induction false} EscapedConcat(a: string, b: string)
    requires Writable(a + b)
    ensures Writable(a) && Writable(b)
    ensures Escaped(a + b) == Escaped(a) + Escaped(b)
  {
    assert forall c :: c in a + b <==> c in a || c in b;
    if a == "" {
      assert a + b == b;
    } else {
      assert (a + b)[1..] == a[1..] + b && forall c :: c in a[1..] + b ==> c in a + b;
      EscapedConcat(a[1..], b);
    }
  }

  /** escape: the body of the literal, or the first character no literal is written for. */
  method Escape(text: string) returns (r: Result<string, LiteralError>)
    ensures r.Ok? <==> Writable(text)
    ensures r.Ok? ==> r.value == Escaped(text)
    ensures r.Err? ==> !Escapable(r.error.c) && r.error.c in text
  {
    var out := "";
    for n := 0 to |text|
      invariant Writable(text[..n]) && out == Escaped(text[..n])
    {
      var ch := text[n];
      assert ch in text && text[..n + 1] == text[..n] + [ch];
      if !Escapable(ch) {
        return Err(NotAscii(ch));
      }
      EscapedStep(text, n);
      if ch == '\\' {
        out := out + "\\\\";
      } else if ch == '\"' {
        out := out + "\\\"";
      } else if ch == '\n' {
        out := out + "\\n";
      } else if ch != '\r' {
        out := out + if ch == '\t' then "\\t" else if ch == '?' then "\\?" else [ch];
      } else {
        assert out + "" == out;
      }
    }
    assert text[..|text|] == text;
    return Ok(out);
  }

  // ---------------------------------------------------------------- what a compiler reads

  /** The character an escape sequence stands for, of those the generator writes. */
  function Simple(c: char): Option<char> {
    if c in {'\\', '\"', '?'} then Some(c) else if c == 'n' then Some('\n') else if c == 't' then Some('\t') else None
  }

  /**
   The text a literal's body stands for; none if the body ends the literal early or holds an unknown escape sequence.
   */
  function Read(body: string): Option<string> {
    if body == "" then Some("")
    else if body[0] == '\\' then
      if |body| < 2 || Simple(body[1]).None? then None
      else
        var rest := Read(body[2..]);
        if rest.None? then None else Some([Simple(body[1]).value] + rest.value)
    else if body[0] == '\"' || body[0] == '\n' then None
    else
      var rest := Read(body[1..]);
      if rest.None? then None else Some([body[0]] + rest.value)
  }

  /** A literal reads back as its text without the carriage returns. */
  lemma {:induction false} EscapedIsRead(text: string)
    requires Writable(text)
    ensures Read(Escaped(text)) == Some(WithoutReturns(text))
  {
    if text != "" {
      var c, head, rest := text[0], EscapeOne(text[0]), Escaped(text[1..]);
      assert c in text;
      EscapedIsRead(text[1..]);
      if c == '\r' {
        assert head + rest == rest;
      } else {
        assert (head + rest)[|head|..] == rest;
      }
    }
  }

  /** Escaping at most doubles a text, and writes no two question marks in a row: no trigraph. */
  lemma {:induction false} EscapedIsTame(text: string)
    requires Writable(text)
    ensures |Escaped(text)| <= 2 * |text|
    ensures forall i: nat :: i + 1 < |Escaped(text)| ==> !(Escaped(text)[i] == '?' && Escaped(text)[i + 1] == '?')
    ensures Escaped(text) != "" ==> Escaped(text)[0] != '?'
  {
    if text != "" {
      assert text[0] in text;
      EscapedIsTame(text[1..]);
      var head, rest := EscapeOne(text[0]), Escaped(text[1..]);
      assert Escaped(text) == head + rest;
      forall i: nat | i + 1 < |head + rest|
        ensures !((head + rest)[i] == '?' && (head + rest)[i + 1] == '?')
      {
        if i >= |head| {
          assert (head + rest)[i] == rest[i - |head|];
        }
      }
    }
  }

  // ---------------------------------------------------------------- chunks

  /** The text cut every `size` characters; one empty chunk for the empty text. */
  function Chunks(text: string, size: nat): (chunks: seq<string>)
    requires size > 0
    ensures chunks != []
    decreases |text|
  {
    if |text| <= size then [text] else [text[..size]] + Chunks(text[size..], size)
  }

  /** What the compiler makes of an array of literals. */
  function ReadAll(bodies: seq<string>): Option<string> {
    if bodies == [] then Some("")
    else
      var head, rest := Read(bodies[0]), ReadAll(bodies[1..]);
      if head.None? || rest.None? then None else Some(head.value + rest.value)
  }

  function AllEscaped(chunks: seq<string>): seq<string>
    requires AllWritable(chunks)
  {
    if chunks == [] then [] else [Escaped(chunks[0])] + AllEscaped(chunks[1..])
  }

  lemma {:induction false} ReturnsConcat(a: string, b: string)
    ensures WithoutReturns(a + b) == WithoutReturns(a) + WithoutReturns(b)
  {
    if a == "" {
      assert a + b == b;
    } else {
      assert (a + b)[1..] == a[1..] + b;
      ReturnsConcat(a[1..], b);
    }
  }

  lemma {:induction false} WritableConcat(a: string, b: string)
    ensures Writable(a + b) <==> Writable(a) && Writable(b)
  {
    assert forall i: nat :: i < |a| ==> (a + b)[i] == a[i];
    assert forall i: nat :: i < |b| ==> (a + b)[|a| + i] == b[i];
  }

  lemma {:induction false} WritableCons(head: string, chunks: seq<string>)
    ensures AllWritable([head] + chunks) <==> Writable(head) && AllWritable(chunks)
  {
    hide Writable;
    assert ([head] + chunks)[0] == head;
    assert forall k: nat :: k < |chunks| ==> ([head] + chunks)[k + 1] == chunks[k];
  }

  /** A text can be escaped exactly when its chunks can. */
  lemma {:induction false} ChunkLetters(text: string, size: nat)
    requires size > 0
    ensures Writable(text) <==> AllWritable(Chunks(text, size))
    ensures forall k: nat :: k < |Chunks(text, size)| ==> |Chunks(text, size)[k]| <= size
    decreases |text|
  {
    hide Writable;
    if |text| > size {
      var head, rest := text[..size], text[size..];
      ChunkLetters(rest, size);
      WritableConcat(head, rest);
      assert head + rest == text;
      var chunks := Chunks(rest, size);
      assert Chunks(text, size) == [head] + chunks;
      WritableCons(head, chunks);
    } else {
      WritableCons(text, []);
      assert [text] + [] == [text];
    }
  }

  /** However a text is cut, its literals read back, joined, as the text without its carriage returns. */
  lemma {:induction false} ChunksAreRead(text: string, size: nat)
    requires size > 0 && Writable(text)
    ensures AllWritable(Chunks(text, size))
    ensures ReadAll(AllEscaped(Chunks(text, size))) == Some(WithoutReturns(text))
    decreases |text|
  {
    hide Writable, Read, Escaped;
    ChunkLetters(text, size);
    if |text| <= size {
      EscapedIsRead(text);
      assert AllEscaped([text]) == [Escaped(text)];
      assert WithoutReturns(text) + "" == WithoutReturns(text);
    } else {
      var head, rest := text[..size], text[size..];
      assert head + rest == text;
      WritableConcat(head, rest);
      EscapedIsRead(head);
      ChunksAreRead(rest, size);
      ReturnsConcat(head, rest);
      var chunks := Chunks(rest, size);
      WritableCons(head, chunks);
      assert ([head] + chunks)[1..] == chunks;
      assert AllEscaped([head] + chunks) == [Escaped(head)] + AllEscaped(chunks);
      assert ([Escaped(head)] + AllEscaped(chunks))[1..] == AllEscaped(chunks);
    }
  }

  lemma {:induction false} AllEscapedStep(chunks: seq<string>, n: nat)
    requires n < |chunks| && AllWritable(chunks[..n]) && Writable(chunks[n])
    ensures AllWritable(chunks[..n + 1]) &&
      AllEscaped(chunks[..n + 1]) == AllEscaped(chunks[..n]) + [Escaped(chunks[n])]
    decreases n
  {
    hide Writable, Escaped;
    assert AllWritable(chunks[..n + 1]) by {
      assert chunks[..n + 1] == chunks[..n] + [chunks[n]];
    }
    if n == 0 {
      assert chunks[..1] == [chunks[0]] && [chunks[0]][1..] == [];
    } else {
      assert chunks[..n + 1][1..] == chunks[1..][..n] && chunks[..n][1..] == chunks[1..][..n - 1];
      AllEscapedStep(chunks[1..], n - 1);
    }
  }

  /** The chunks escaped one after another. */
  method EscapeChunks(chunks: seq<string>, ghost size: nat) returns (r: Result<seq<string>, LiteralError>)
    requires forall k: nat :: k < |chunks| ==> |chunks[k]| <= size
    ensures r.Ok? <==> AllWritable(chunks)
    ensures r.Ok? ==> r.value == AllEscaped(chunks) && forall b: nat :: b < |r.value| ==> |r.value[b]| <= 2 * size
  {
    var bodies: seq<string> := [];
    assert AllEscaped(chunks[..0]) == [];
    hide Writable, AllEscaped, Escaped;
    for n := 0 to |chunks|
      invariant AllWritable(chunks[..n]) && bodies == AllEscaped(chunks[..n])
      invariant forall b: nat :: b < |bodies| ==> |bodies[b]| <= 2 * size
    {
      var body :- Escape(chunks[n]);
      EscapedIsTame(chunks[n]);
      AllEscapedStep(chunks, n);
      bodies := bodies + [body];
    }
    assert chunks[..|chunks|] == chunks;
    return Ok(bodies);
  }

  /**
   emit: the bodies of the literals written for a text. Read back and joined they are the text without its carriage
   returns; each is at most twice the chunk long, well under the compiler's cap.
   */
  method Emit(text: string) returns (r: Result<seq<string>, LiteralError>)
    ensures r.Ok? <==> Writable(text)
    ensures r.Ok? ==> ReadAll(r.value) == Some(WithoutReturns(text))
    ensures r.Ok? ==> forall b: nat :: b < |r.value| ==> |r.value[b]| <= 2 * CHUNK < LITERAL_CAP
  {
    hide Writable, AllEscaped, AllWritable, Chunks, ReadAll, WithoutReturns;
    ChunkLetters(text, CHUNK);
    r := EscapeChunks(Chunks(text, CHUNK), CHUNK);
    if r.Ok? {
      ChunksAreRead(text, CHUNK);
    }
  }
}
