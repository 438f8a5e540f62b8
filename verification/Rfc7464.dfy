/**
 * psjson.py, RFC7464Emitter and RFC7464Parser: JSON text sequences (section 2 of
 * RFC 7464) written to one end of a stream and read from the other.
 */
module Rfc7464 {

  const RS: char := '\U{1e}'

  /** str.replace("\n", "") */
  function Flat(text: string): string
  {
    if text == [] then [] else (if text[0] == '\n' then [] else [text[0]]) + Flat(text[1..])
  }

  function Frame(text: string): string
  {
    [RS] + Flat(text) + "\n"
  }

  function Frames(texts: seq<string>): string
  {
    if texts == [] then [] else Frame(texts[0]) + Frames(texts[1..])
  }

  class Emitter {
    var written: string

    constructor ()
      ensures written == []
    {
      written := [];
    }

    method EmitText(text: string)
      modifies this
      ensures written == old(written) + Frame(text)
    {
      var flat := Flatten(text);
      written := written + ([RS] + flat + "\n");
    }
  }

  lemma FlatRest(c: char, rest: string)
    ensures Flat([c] + rest) == (if c == '\n' then "" else [c]) + Flat(rest)
  {
    assert ([c] + rest)[1..] == rest;
  }

  lemma JoinRest(flat: string -> string, head: string, c: char, a: string, b: string)
    requires flat([c] + a) == head + flat(a) && flat([c] + (a + b)) == head + flat(a + b)
    requires flat(a + b) == flat(a) + flat(b)
    ensures flat([c] + a + b) == flat([c] + a) + flat(b)
  {
    assert [c] + a + b == [c] + (a + b);
  }

  /** Text is flattened character by character, and only newlines go. */
  lemma {:induction false} FlatJoins(a: string, b: string)
    ensures Flat(a + b) == Flat(a) + Flat(b)
  {
    if a == [] {
      assert a + b == b;
    } else {
      var rest := a[1..];
      FlatJoins(rest, b);
      FlatRest(a[0], rest);
      FlatRest(a[0], rest + b);
      JoinRest(Flat, if a[0] == '\n' then "" else [a[0]], a[0], rest, b);
      assert a == [a[0]] + rest;
    }
  }

  lemma FlatOne(c: char)
    ensures Flat([c]) == if c == '\n' then "" else [c]
  {
    assert [c][1..] == [];
  }

  method Flatten(text: string) returns (flat: string)
    ensures flat == Flat(text)
  {
    flat := "";
    for i := 0 to |text|
      invariant flat == Flat(text[..i])
    {
      FlatJoins(text[..i], [text[i]]);
      FlatOne(text[i]);
      assert text[..i + 1] == text[..i] + [text[i]];
      if text[i] != '\n' {
        flat := flat + [text[i]];
      }
    }
    assert text[..|text|] == text;
  }

  // ----- reading

  /** The end of the stream, a line that does not start with the record separator, or the text after one. */
  datatype Item = End | Bad(line: string) | Text(text: string)

  /** What readline() returns: up to and with the first newline, or all there is. */
  function FirstLine(s: string): (line: string)
    ensures |line| <= |s| && line == s[..|line|]
    ensures s != [] ==> line != []
  {
    if s == [] then [] else if s[0] == '\n' then [s[0]] else [s[0]] + FirstLine(s[1..])
  }

  function ItemOf(line: string): Item
    requires line != []
  {
    if line[0] != RS then Bad(line) else Text(line[1..])
  }

  /** Everything reading a stream to its end yields, errors included. */
  function Items(s: string): seq<Item>
    decreases |s|
  {
    if s == [] then [] else [ItemOf(FirstLine(s))] + Items(s[|FirstLine(s)|..])
  }

  /** The first n characters are the start of the first line. */
  ghost predicate LineSoFar(s: string, n: nat)
    requires n <= |s|
  {
    FirstLine(s) == s[..n] + FirstLine(s[n..])
  }

  lemma LineGoesOn(s: string, n: nat)
    requires n < |s| && s[n] != '\n' && LineSoFar(s, n)
    ensures LineSoFar(s, n + 1)
  {
  }

  lemma LineEnds(s: string, n: nat)
    requires n <= |s| && (n < |s| ==> s[n] == '\n') && LineSoFar(s, n)
    ensures FirstLine(s) == if n < |s| then s[..n + 1] else s
  {
  }

  class Parser {
    var unread: string

    constructor (stream: string)
      ensures unread == stream
    {
      unread := stream;
    }

    method ReadLine() returns (data: string)
      modifies this
      ensures data == FirstLine(old(unread)) && unread == old(unread)[|data|..]
    {
      var n := 0;
      while n < |unread| && unread[n] != '\n'
        invariant n <= |unread| && unread == old(unread)
        invariant LineSoFar(unread, n)
      {
        LineGoesOn(unread, n);
        n := n + 1;
      }
      LineEnds(unread, n);
      if n < |unread| {
        n := n + 1;
      }
      data := unread[..n];
      unread := unread[n..];
    }

    /** __next__; the text goes on to the JSON loader, newline and all. */
    method Next() returns (item: Item)
      modifies this
      ensures old(unread) == [] ==> item == End && unread == []
      ensures old(unread) != [] ==> !item.End? && [item] + Items(unread) == Items(old(unread))
    {
      var data := ReadLine();
      if |data| == 0 {
        return End;
      }
      if data[0] != RS {
        return Bad(data);
      }
      return Text(data[1..]);
    }
  }

  // ----- the round trip

  lemma {:induction false} FlatHasNoNewline(text: string)
    ensures '\n' !in Flat(text)
    ensures '\n' !in text ==> Flat(text) == text
  {
    if text != [] {
      FlatHasNoNewline(text[1..]);
    }
  }

  lemma {:induction false} FirstLineEnds(s: string, rest: string)
    requires '\n' !in s
    ensures FirstLine(s + "\n" + rest) == s + "\n"
  {
    if s == [] {
      assert s + "\n" + rest == "\n" + rest;
    } else {
      FirstLineEnds(s[1..], rest);
      assert (s + "\n" + rest)[1..] == s[1..] + "\n" + rest;
    }
  }

  /** A frame is read back as its text without newlines, and leaves what follows it untouched. */
  lemma FrameReadsBack(text: string, rest: string)
    ensures Items(Frame(text) + rest) == [Text(Flat(text) + "\n")] + Items(rest)
  {
    FlatHasNoNewline(text);
    var line := [RS] + Flat(text);
    FirstLineEnds(line, rest);
    assert Frame(text) + rest == line + "\n" + rest;
    assert (line + "\n" + rest)[|line| + 1..] == rest;
    assert (line + "\n")[1..] == Flat(text) + "\n";
  }

  /** Emitting texts one after another writes their frames. */
  lemma {:induction false} FramesOneMore(texts: seq<string>, text: string)
    ensures Frames(texts + [text]) == Frames(texts) + Frame(text)
  {
    if texts == [] {
      assert [text][1..] == [];
      assert Frame(text) + [] == Frame(text);
      assert [] + Frame(text) == Frame(text);
      assert texts + [text] == [text];
    } else {
      FramesOneMore(texts[1..], text);
      assert (texts + [text])[1..] == texts[1..] + [text];
    }
  }

  /** What is read for some texts. */
  function Payloads(texts: seq<string>): (r: seq<Item>)
    ensures |r| == |texts|
    ensures forall i :: 0 <= i < |texts| ==> r[i] == Text(Flat(texts[i]) + "\n")
  {
    if texts == [] then [] else [Text(Flat(texts[0]) + "\n")] + Payloads(texts[1..])
  }

  lemma PutFirst(read: string -> seq<Item>, frame: string, item: Item, frames: string, rest: string, payloads: seq<Item>)
    requires read(frame + (frames + rest)) == [item] + read(frames + rest)
    requires read(frames + rest) == payloads + read(rest)
    ensures read(frame + frames + rest) == [item] + payloads + read(rest)
  {
    assert frame + frames + rest == frame + (frames + rest);
  }

  /** What is read from frames and anything after them: first the frames, then the rest. */
  lemma {:induction false} FramesThen(texts: seq<string>, rest: string)
    ensures Items(Frames(texts) + rest) == Payloads(texts) + Items(rest)
  {
    if texts == [] {
      assert [] + rest == rest;
      assert [] + Items(rest) == Items(rest);
    } else {
      var frames := Frames(texts[1..]);
      FramesThen(texts[1..], rest);
      FrameReadsBack(texts[0], frames + rest);
      PutFirst(Items, Frame(texts[0]), Text(Flat(texts[0]) + "\n"), frames, rest, Payloads(texts[1..]));
    }
  }

  /** Reading what was written yields the texts without their newlines, in order, and then the end. */
  lemma RoundTrip(texts: seq<string>)
    ensures Items(Frames(texts)) == Payloads(texts)
  {
    FramesThen(texts, []);
    assert Frames(texts) + [] == Frames(texts);
    assert Payloads(texts) + [] == Payloads(texts);
  }

  /** A bad line among the frames is reported as such, and no text before or after it is lost. */
  lemma Resynchronizes(before: seq<string>, junk: string, after: seq<string>)
    requires '\n' !in junk && (junk == [] || junk[0] != RS)
    ensures Items(Frames(before) + (junk + "\n" + Frames(after))) ==
              Payloads(before) + ([Bad(junk + "\n")] + Payloads(after))
  {
    var rest := Frames(after);
    FramesThen(before, junk + "\n" + rest);
    RoundTrip(after);
    FirstLineEnds(junk, rest);
    assert (junk + "\n" + rest)[|junk| + 1..] == rest;
  }
}
