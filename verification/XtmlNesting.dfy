/** The tags of a rendering nest, whatever the image prompts are, as long as none is a control token
    that makes a tag. */
module XtmlNesting {
  import opened Prelude
  import opened XtmlMessages
  import opened XtmlSegments
  import opened XtmlEncoder
  import opened XtmlParsing
  import opened XtmlForest
  import opened XtmlRoundTrip
  import opened XtmlTheorems

  /** The prompt is none of the tokens that tags are made of. */
  predicate Harmless(prompt: string) {
    prompt != OPEN_TOKEN && prompt != CLOSE_TOKEN && prompt != SEP_TOKEN
  }

  predicate HarmlessPrompts(prompts: Prompts) {
    prompts.Some? ==> forall i | 0 <= i < |prompts.value| :: Harmless(prompts.value[i])
  }

  /** The symbols are the same, but images may be missing or turned into ends of messages. */
  predicate Loosened(s: seq<Sym>, s': seq<Sym>) {
    if |s| == 0 then |s'| == 0
    else
      || (s[0] == Slot && Loosened(s[1..], s'))
      || (|s'| > 0 && (s'[0] == s[0] || (s[0] == Slot && s'[0] == Eom)) && Loosened(s[1..], s'[1..]))
  }

  lemma {:induction false} LoosenedSame(s: seq<Sym>)
    ensures Loosened(s, s)
  {
    if |s| > 0 {
      LoosenedSame(s[1..]);
    }
  }

  lemma {:induction false} LoosenedConcat(a: seq<Sym>, a': seq<Sym>, b: seq<Sym>, b': seq<Sym>)
    requires Loosened(a, a') && Loosened(b, b')
    ensures Loosened(a + b, a' + b')
  {
    if |a| == 0 {
      assert a + b == b && a' + b' == b';
    } else {
      assert (a + b)[1..] == a[1..] + b;
      if a[0] == Slot && Loosened(a[1..], a') {
        LoosenedConcat(a[1..], a', b, b');
      } else {
        assert (a' + b')[1..] == a'[1..] + b';
        LoosenedConcat(a[1..], a'[1..], b, b');
      }
    }
  }

  // ----- Running loosened symbols

  /** The same elements are open. */
  ghost predicate SameOpen(stack: Stack, stack': Stack) {
    |stack| == |stack'|
    && forall i | 0 <= i < |stack| :: stack[i].tag == stack'[i].tag && stack[i].attrs == stack'[i].attrs
  }

  lemma {:induction false} HeadersKept(s: seq<Sym>, s': seq<Sym>)
    requires Loosened(s, s') && |ReadChars(s).1| > 0 && ReadChars(s).1[0] == Sep
    ensures ReadChars(s').0 == ReadChars(s).0 && |ReadChars(s').1| > 0 && ReadChars(s').1[0] == Sep
    ensures Loosened(ReadChars(s).1[1..], ReadChars(s').1[1..])
  {
    if s[0].Ch? {
      HeadersKept(s[1..], s'[1..]);
    }
  }

  lemma {:induction false} LoosenedRun(s: seq<Sym>, s': seq<Sym>, stack: Stack, stack': Stack)
    requires Loosened(s, s') && SameOpen(stack, stack') && Run(s, stack).Some?
    ensures Run(s', stack').Some? && SameOpen(Run(s, stack).value, Run(s', stack').value)
    decreases |s|
  {
    if |s| > 0 {
      match s[0]
      case Ch(c) => LoosenedRun(s[1..], s'[1..], Add(stack, [Chr(c)]), Add(stack', [Chr(c)]));
      case Eom => LoosenedRun(s[1..], s'[1..], Add(stack, [EndOfMessage]), Add(stack', [EndOfMessage]));
      case Slot =>
        if Loosened(s[1..], s') {
          LoosenedRun(s[1..], s', Add(stack, [Picture]), stack');
        } else {
          LoosenedRun(s[1..], s'[1..], Add(stack, [Picture]),
                      Add(stack', [if s'[0] == Slot then Picture else EndOfMessage]));
        }
      case Open =>
        HeadersKept(s[1..], s'[1..]);
        var (text, rest) := ReadChars(s[1..]);
        var header := ParseHeader(text).value;
        var frame := Frame(header.0, header.1, []);
        LoosenedRun(rest[1..], ReadChars(s'[1..]).1[1..], [frame] + stack, [frame] + stack');
      case Close =>
        HeadersKept(s[1..], s'[1..]);
        var rest := ReadChars(s[1..]).1;
        LoosenedRun(rest[1..], ReadChars(s'[1..]).1[1..],
                    Add(stack[1..], [Elem(stack[0].tag, stack[0].attrs, stack[0].body)]),
                    Add(stack'[1..], [Elem(stack'[0].tag, stack'[0].attrs, stack'[0].body)]));
      case Sep =>
    }
  }

  // ----- Filling loosens

  predicate AllHarmless(list: seq<string>) {
    forall i | 0 <= i < |list| :: Harmless(list[i])
  }

  lemma LoosenedPrompt(prompt: string)
    requires Harmless(prompt)
    ensures Loosened([Slot], Syms(Control(prompt)))
  {
    assert [Slot][1..] == [];
    if prompt != "" {
      SymsOfControl(prompt);
      assert [Eom][1..] == [];
    }
  }

  lemma LoosenedImage(list: seq<string>, index: nat)
    requires AllHarmless(list)
    ensures var image := FillImage(Some(list), index); image.Ok? ==> Loosened([Slot], Syms(image.value.0))
  {
    if index < |list| {
      LoosenedPrompt(list[index]);
    }
  }

  lemma LoosenedText(text: string)
    ensures Loosened(Print(TextNodes(text, false)), Syms(Plain(text)))
  {
    SymsOfPlain(text);
    PrintText(text);
    LoosenedSame(Chars(text));
  }

  lemma {:induction false} LoosenedParts(list: seq<string>, index: nat, parts: seq<string>)
    requires |parts| > 0 && AllHarmless(list)
    ensures var filled := FillParts(Some(list), index, parts);
            filled.Ok? ==> Loosened(Print(Joined(parts)), Syms(filled.value.0))
    decreases |parts|
  {
    LoosenedText(parts[0]);
    var image := FillImage(Some(list), index);
    if |parts| > 1 && image.Ok? {
      var rest := FillParts(Some(list), image.value.1, parts[1..]);
      LoosenedImage(list, index);
      LoosenedParts(list, image.value.1, parts[1..]);
      if rest.Ok? {
        JoinedSyms(parts);
        SymsConcat(Plain(parts[0]), image.value.0);
        SymsConcat(Plain(parts[0]) + image.value.0, rest.value.0);
        LoosenedConcat(Print(TextNodes(parts[0], false)), Syms(Plain(parts[0])), [Slot], Syms(image.value.0));
        LoosenedConcat(Print(TextNodes(parts[0], false)) + [Slot], Syms(Plain(parts[0])) + Syms(image.value.0),
                       Print(Joined(parts[1..])), Syms(rest.value.0));
      }
    }
  }

  lemma JoinedSyms(parts: seq<string>)
    requires |parts| > 1
    ensures Print(Joined(parts)) == Print(TextNodes(parts[0], false)) + [Slot] + Print(Joined(parts[1..]))
  {
    PrintOne(Picture);
    PrintConcat([Picture], Joined(parts[1..]));
    PrintConcat(TextNodes(parts[0], false), [Picture] + Joined(parts[1..]));
    Inward(Print(TextNodes(parts[0], false)), [Slot], Print(Joined(parts[1..])));
  }

  lemma LoosenedPiece(list: seq<string>, index: nat, piece: Piece)
    requires AllHarmless(list)
    ensures var filled := FillPiece(Some(list), index, piece);
            filled.Ok? ==> Loosened(PieceSyms(piece, true), Syms(filled.value.0))
  {
    match piece
    case Done(segment) =>
      assert [segment][1..] == [] && SegmentSyms(segment) + [] == SegmentSyms(segment);
      LoosenedSame(SegmentSyms(segment));
    case UserText(text) =>
      LoosenedParts(list, index, Split(text));
      SplitIsJoined(text);
    case Image => LoosenedImage(list, index);
    case Fail(_) =>
  }

  lemma {:induction false} LoosenedPieces(list: seq<string>, index: nat, pieces: seq<Piece>)
    requires AllHarmless(list)
    ensures var filled := Fill(Some(list), index, pieces);
            filled.Ok? ==> Loosened(PiecesSyms(pieces, true), Syms(filled.value.0))
    decreases |pieces|
  {
    if |pieces| > 0 {
      var first := FillPiece(Some(list), index, pieces[0]);
      LoosenedPiece(list, index, pieces[0]);
      if first.Ok? {
        var rest := Fill(Some(list), first.value.1, pieces[1..]);
        LoosenedPieces(list, first.value.1, pieces[1..]);
        if rest.Ok? {
          SymsConcat(first.value.0, rest.value.0);
          LoosenedConcat(PieceSyms(pieces[0], true), Syms(first.value.0),
                         PiecesSyms(pieces[1..], true), Syms(rest.value.0));
        }
      }
    }
  }

  lemma StaysOpen(ms: seq<Message>, options: Options, stack: Stack)
    requires exists split :: SameOpen(Expected(ms, options, split), stack)
    ensures !options.generationPrompt ==> |stack| == 1
    ensures options.generationPrompt ==> |stack| == 3 && stack[0].tag == Channel(options) && stack[1].tag == MESSAGE
  {
    var split :| SameOpen(Expected(ms, options, split), stack);
    var expected := Expected(ms, options, split);
    assert options.generationPrompt ==> expected[0] == Inner(options) && expected[1] == Outer();
  }

  /** The tags of a rendering are balanced and nested; a generation prompt leaves exactly two open,
      the message and its channel. */
  lemma TagsAreNested(ms: seq<Message>, options: Options, prompts: Prompts, segments: seq<Segment>)
    requires Encode(ms, options, prompts) == Ok(segments) && HarmlessPrompts(prompts)
    ensures Parse(segments).Some?
    ensures !options.generationPrompt ==> |Parse(segments).value| == 1
    ensures options.generationPrompt ==>
              && |Parse(segments).value| == 3
              && Parse(segments).value[0].tag == (if options.thinking then "think" else "response")
              && Parse(segments).value[1].tag == "message"
  {
    if prompts.None? {
      TreeReadBack(ms, options, prompts, segments);
      StaysOpen(ms, options, Parse(segments).value);
    } else {
      var pieces := ChatPieces(ms, options);
      LoosenedPieces(prompts.value, 0, pieces);
      ReadBack(ms, options, true);
      LoosenedRun(PiecesSyms(pieces, true), Syms(segments), [ROOT], [ROOT]);
      StaysOpen(ms, options, Parse(segments).value);
    }
  }
}
