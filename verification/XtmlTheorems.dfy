/** The theorems about a whole rendering: what its conversation says is read back exactly, and the
    image checks pass for exactly the right number of prompts. */
module XtmlTheorems {
  import opened Prelude
  import opened XtmlMessages
  import opened XtmlSegments
  import opened XtmlEncoder
  import opened XtmlParsing
  import opened XtmlReader
  import opened XtmlRecords
  import opened XtmlForest
  import opened XtmlRoundTrip

  // ----- The symbols of a conversation

  lemma RendersEffort(options: Options, split: bool)
    ensures Renders(EffortPieces(options), EffortNodes(options), split)
  {
    if options.thinking && options.thinkingEffort.Some? {
      if ValidEffort(options.thinkingEffort.value) {
        RendersInternal("thinking-effort", EffortText(options.thinkingEffort.value), split);
      } else {
        RendersFailure(BadEffort, split);
      }
    }
  }

  lemma RendersDeclared(options: Options, split: bool)
    ensures Renders(Ready(Declared(options)), DeclaredNodes(options), split)
  {
    if options.tools.Some? {
      RendersInternal("tool-declare", ToolDeclareText(options.tools.value, false), split);
    }
  }

  lemma InstructionSyms(options: Options)
    ensures Syms(Instructions(options)) == Print(InstructionNodes(options))
    ensures Images(Instructions(options)) == [] && WellNamed(InstructionNodes(options))
  {
    var choice, format := options.toolChoice, options.responseFormat;
    var a := if choice.OtherChoice? then [] else InternalMessage("tool-choice", ChoiceText(choice.RequiredTools?));
    var b := if format.OtherFormat? then [] else InternalMessage("response-format", FormatText(format));
    var x := if choice.OtherChoice? then [] else InternalNodes("tool-choice", ChoiceText(choice.RequiredTools?));
    var y := if format.OtherFormat? then [] else InternalNodes("response-format", FormatText(format));
    InternalSyms("tool-choice", ChoiceText(choice.RequiredTools?));
    if !format.OtherFormat? {
      InternalSyms("response-format", FormatText(format));
    }
    BothSyms(a, b, x, y);
  }

  lemma BothSyms(a: seq<Segment>, b: seq<Segment>, x: seq<Node>, y: seq<Node>)
    requires Syms(a) == Print(x) && Images(a) == [] && WellNamed(x)
    requires Syms(b) == Print(y) && Images(b) == [] && WellNamed(y)
    ensures Syms(a + b) == Print(x + y) && Images(a + b) == [] && WellNamed(x + y)
  {
    SymsConcat(a, b);
    PrintConcat(x, y);
    WellNamedConcat(x, y);
  }

  /** The two elements that a generation prompt leaves open. */
  function Outer(): Frame { Frame(MESSAGE, ASSISTANT, []) }

  function Inner(options: Options): Frame { Frame(Channel(options), [], []) }

  function FrameSyms(frame: Frame): seq<Sym> { OpenSyms(frame.tag, frame.attrs) }

  function GenerationSyms(options: Options): seq<Sym> {
    if options.generationPrompt then FrameSyms(Outer()) + FrameSyms(Inner(options)) else []
  }

  lemma GenerationIs(options: Options)
    ensures Syms(GenerationPrompt(options)) == GenerationSyms(options) && Images(GenerationPrompt(options)) == []
  {
    if options.generationPrompt {
      OpenTagSyms(MESSAGE, ASSISTANT);
      OpenTagSyms(Channel(options), []);
      SymsConcat(OpenTag(MESSAGE, ASSISTANT), OpenTag(Channel(options), []));
    }
  }

  /** The pieces of a conversation print its tree, and then the generation prompt. */
  lemma ChatSyms(ms: seq<Message>, options: Options, split: bool)
    ensures PiecesSyms(ChatPieces(ms, options), split) == Print(ChatNodes(ms, options, split)) + GenerationSyms(options)
    ensures NoImages(ChatPieces(ms, options)) && WellNamed(ChatNodes(ms, options, split))
  {
    var end, gen := Instructions(options), GenerationPrompt(options);
    var p, q := EffortPieces(options), MessagesPieces(ms, [], 0, options.thinking);
    var y, z, w := EffortNodes(options), MessagesNodes(ms, [], 0, options.thinking, split), InstructionNodes(options);
    RendersDeclared(options, split);
    RendersEffort(options, split);
    RendersMessages(ms, [], 0, options.thinking, split);
    InstructionSyms(options);
    GenerationIs(options);
    SymsConcat(end, gen);
    ReadySyms(end + gen, split);
    Before(q, Ready(end + gen), z, w, GenerationSyms(options), split);
    Before(p, q + Ready(end + gen), y, z + w, GenerationSyms(options), split);
    Before(Ready(Declared(options)), p + (q + Ready(end + gen)), DeclaredNodes(options), y + (z + w),
           GenerationSyms(options), split);
  }

  lemma Before(p: seq<Piece>, q: seq<Piece>, a: seq<Node>, b: seq<Node>, tail: seq<Sym>, split: bool)
    requires Renders(p, a, split) && PiecesSyms(q, split) == Print(b) + tail && NoImages(q) && WellNamed(b)
    ensures PiecesSyms(p + q, split) == Print(a + b) + tail && NoImages(p + q) && WellNamed(a + b)
  {
    PiecesSymsConcat(p, q, split);
    PrintConcat(a, b);
    WellNamedConcat(a, b);
    Inward(Print(a), Print(b), tail);
  }

  // ----- Reading back

  function OpenFrames(options: Options): seq<Frame> {
    if options.generationPrompt then [Inner(options), Outer()] else []
  }

  /** The stack at the end: the tree of the conversation, under what the generation prompt leaves open. */
  function Expected(ms: seq<Message>, options: Options, split: bool): Stack {
    OpenFrames(options) + [Frame("", [], ChatNodes(ms, options, split))]
  }

  predicate GoodOpening(frame: Frame) {
    Without(frame.tag, ' ') && GoodKeys(frame.attrs) && frame.body == []
  }

  lemma GoodOpenings(options: Options)
    ensures GoodOpening(Outer()) && GoodOpening(Inner(options))
  {
  }

  lemma TwoOpenRun(outer: Frame, inner: Frame, stack: Stack)
    requires GoodOpening(outer) && GoodOpening(inner)
    ensures Run(FrameSyms(outer) + FrameSyms(inner), stack) == Some([inner, outer] + stack)
  {
    OpenRun(outer.tag, outer.attrs, FrameSyms(inner), stack);
    OpenRun(inner.tag, inner.attrs, [], [outer] + stack);
    assert FrameSyms(inner) + [] == FrameSyms(inner);
    assert [inner] + ([outer] + stack) == [inner, outer] + stack;
  }

  lemma GenerationRun(options: Options, stack: Stack)
    ensures Run(GenerationSyms(options), stack) == Some(OpenFrames(options) + stack)
  {
    if options.generationPrompt {
      GoodOpenings(options);
      TwoOpenRun(Outer(), Inner(options), stack);
    } else {
      assert [] + stack == stack;
    }
  }

  lemma ReadBack(ms: seq<Message>, options: Options, split: bool)
    ensures Run(PiecesSyms(ChatPieces(ms, options), split), [ROOT]) == Some(Expected(ms, options, split))
  {
    ChatSyms(ms, options, split);
    var nodes := ChatNodes(ms, options, split);
    PrintRun(nodes, GenerationSyms(options), [ROOT]);
    assert [] + nodes == nodes;
    assert Add([ROOT], nodes) == [Frame("", [], nodes)];
    GenerationRun(options, [Frame("", [], nodes)]);
  }

  lemma {:induction false} StackPicturesConcat(a: seq<Frame>, b: seq<Frame>)
    ensures StackPictures(a + b) == StackPictures(a) + StackPictures(b)
  {
    if |a| == 0 {
      assert a + b == b;
    } else {
      assert (a + b)[0] == a[0] && (a + b)[1..] == a[1..] + b;
      StackPicturesConcat(a[1..], b);
    }
  }

  lemma OneFrame(frame: Frame)
    ensures StackPictures([frame]) == Pictures(frame.body)
  {
    assert [frame][1..] == [];
  }

  lemma OpenFramesAreEmpty(options: Options)
    ensures StackPictures(OpenFrames(options)) == 0
  {
    if options.generationPrompt {
      var outer, inner := Outer(), Inner(options);
      OneFrame(outer);
      OneFrame(inner);
      StackPicturesConcat([inner], [outer]);
      assert [inner] + [outer] == [inner, outer];
    }
  }

  lemma ExpectedPictures(ms: seq<Message>, options: Options, split: bool)
    ensures StackPictures(Expected(ms, options, split)) == Pictures(ChatNodes(ms, options, split))
    ensures Slots(PiecesSyms(ChatPieces(ms, options), split)) == Pictures(ChatNodes(ms, options, split))
  {
    var root := Frame("", [], ChatNodes(ms, options, split));
    ReadBack(ms, options, split);
    RunKeepsImages(PiecesSyms(ChatPieces(ms, options), split), [ROOT]);
    OneFrame(ROOT);
    OneFrame(root);
    OpenFramesAreEmpty(options);
    StackPicturesConcat(OpenFrames(options), [root]);
  }

  // ----- Without prompts

  lemma {:induction false} FillsWithout(index: nat, pieces: seq<Piece>)
    requires NoImages(pieces) && Fill(None, index, pieces).Ok?
    ensures Syms(Fill(None, index, pieces).value.0) == PiecesSyms(pieces, false)
    ensures var images := Images(Fill(None, index, pieces).value.0);
            forall i | 0 <= i < |images| :: images[i] == IMAGE_PLACEHOLDER
    decreases |pieces|
  {
    if |pieces| > 0 {
      var first := FillPiece(None, index, pieces[0]).value;
      FillsWithoutPiece(index, pieces[0]);
      FillsWithout(first.1, pieces[1..]);
      SymsConcat(first.0, Fill(None, first.1, pieces[1..]).value.0);
    }
  }

  lemma FillsWithoutPiece(index: nat, piece: Piece)
    requires (piece.Done? ==> SegmentImages(piece.segment) == []) && FillPiece(None, index, piece).Ok?
    ensures Syms(FillPiece(None, index, piece).value.0) == PieceSyms(piece, false)
    ensures var images := Images(FillPiece(None, index, piece).value.0);
            forall i | 0 <= i < |images| :: images[i] == IMAGE_PLACEHOLDER
  {
    match piece
    case Done(segment) =>
      assert [segment][1..] == [] && SegmentSyms(segment) + [] == SegmentSyms(segment);
    case UserText(text) =>
      SymsOfPlain(text);
      PrintText(text);
    case Image =>
      assert IMAGE_PLACEHOLDER[2] == 'k';
      SymsOfControl(IMAGE_PLACEHOLDER);
  }

  // ----- The theorems

  predicate GoodPrompts(prompts: Prompts) {
    prompts.Some? ==> AllGood(prompts.value)
  }

  /** With good prompts the symbols are those of the tree, and then the generation prompt. */
  lemma EncodedSyms(ms: seq<Message>, options: Options, prompts: Prompts, segments: seq<Segment>)
    requires Encode(ms, options, prompts) == Ok(segments) && GoodPrompts(prompts)
    ensures Syms(segments) == PiecesSyms(ChatPieces(ms, options), prompts.Some?)
    ensures Syms(segments) == Print(ChatNodes(ms, options, prompts.Some?)) + GenerationSyms(options)
  {
    ChatSyms(ms, options, prompts.Some?);
    if prompts.Some? {
      FillsPieces(prompts.value, 0, ChatPieces(ms, options));
      assert prompts.value[0..|prompts.value|] == prompts.value;
    } else {
      FillsWithout(0, ChatPieces(ms, options));
    }
  }

  /** With good prompts the tree is read back. */
  lemma TreeReadBack(ms: seq<Message>, options: Options, prompts: Prompts, segments: seq<Segment>)
    requires Encode(ms, options, prompts) == Ok(segments) && GoodPrompts(prompts)
    ensures Parse(segments) == Some(Expected(ms, options, prompts.Some?))
  {
    EncodedSyms(ms, options, prompts, segments);
    ReadBack(ms, options, prompts.Some?);
  }

  // ----- From segments to records

  /** What was said, and the channel that a generation prompt has opened. */
  datatype Conversation = Conversation(records: seq<Record>, channel: Option<string>)

  /** What a conversation says, taken from its messages and options. */
  function Meaning(ms: seq<Message>, options: Options, split: bool): Conversation {
    Conversation(Records(ms, options, split), if options.generationPrompt then Some(Channel(options)) else None)
  }

  /** Besides the root, the message and channel of a generation prompt are open, and empty. */
  predicate IsOpened(stack: Stack) {
    |stack| == 3 && stack[0].attrs == [] && stack[0].body == [] && stack[1] == Outer()
  }

  function ReadStack(stack: Stack): Option<Conversation> {
    var root := stack[|stack| - 1];
    if root.tag != "" || root.attrs != [] || (|stack| != 1 && !IsOpened(stack)) then None
    else
      match Read(root.body)
      case None => None
      case Some(records) => Some(Conversation(records, if |stack| == 1 then None else Some(stack[0].tag)))
  }

  /** Reading segments alone: no message, option or prompt is known. */
  function Decode(segments: seq<Segment>): Option<Conversation> {
    match Parse(segments)
    case None => None
    case Some(stack) => ReadStack(stack)
  }

  lemma StackExactly(stack: Stack, ms: seq<Message>, options: Options, split: bool)
    ensures ReadStack(stack) == Some(Meaning(ms, options, split)) <==> stack == Expected(ms, options, split)
  {
    var root := stack[|stack| - 1];
    var expected := Expected(ms, options, split);
    ChatIsWritten(ms, options, split);
    ReadExactly(root.body, Records(ms, options, split));
    assert expected[|expected| - 1] == Frame("", [], ChatNodes(ms, options, split));
    if ReadStack(stack) == Some(Meaning(ms, options, split)) {
      if |stack| == 1 {
        assert stack == [root];
      } else {
        assert stack == [stack[0], stack[1], root];
      }
    }
  }

  /** With good prompts everything that the conversation says is recovered from its segments alone:
      roles, names, contents with their images, reasoning, and calls with their arguments. */
  lemma Decodes(ms: seq<Message>, options: Options, prompts: Prompts, segments: seq<Segment>)
    requires Encode(ms, options, prompts) == Ok(segments) && GoodPrompts(prompts)
    ensures Decode(segments) == Some(Meaning(ms, options, prompts.Some?))
  {
    TreeReadBack(ms, options, prompts, segments);
    StackExactly(Expected(ms, options, prompts.Some?), ms, options, prompts.Some?);
  }

  /** The prompts appear in order, once each, except those that cannot be told from structure; their
      number is that of the images in the tree.  Without prompts every image is the placeholder. */
  lemma ImagesInOrder(ms: seq<Message>, options: Options, prompts: Prompts, segments: seq<Segment>)
    requires Encode(ms, options, prompts) == Ok(segments)
    ensures prompts.Some? ==> Images(segments) == Kept(prompts.value)
    ensures prompts.Some? ==> |prompts.value| == Pictures(ChatNodes(ms, options, true))
    ensures prompts.Some? && AllGood(prompts.value) ==> Images(segments) == prompts.value
    ensures prompts.None? ==> |Images(segments)| == Pictures(ChatNodes(ms, options, false))
    ensures prompts.None? ==> forall i | 0 <= i < |Images(segments)| :: Images(segments)[i] == IMAGE_PLACEHOLDER
  {
    ChatSyms(ms, options, prompts.Some?);
    ExpectedPictures(ms, options, prompts.Some?);
    if prompts.Some? {
      FillsPieces(prompts.value, 0, ChatPieces(ms, options));
      assert prompts.value[0..|prompts.value|] == prompts.value;
      KeptExactly(prompts.value);
    } else {
      FillsWithout(0, ChatPieces(ms, options));
      ImageSlots(segments);
    }
  }

  /** That is recovered exactly when no prompt is empty or a control token. */
  lemma DecodesExactly(ms: seq<Message>, options: Options, prompts: Prompts, segments: seq<Segment>)
    requires Encode(ms, options, prompts) == Ok(segments)
    ensures Decode(segments) == Some(Meaning(ms, options, prompts.Some?)) <==> GoodPrompts(prompts)
  {
    if GoodPrompts(prompts) {
      Decodes(ms, options, prompts, segments);
    } else if Decode(segments) == Some(Meaning(ms, options, true)) {
      StackExactly(Parse(segments).value, ms, options, true);
      RunKeepsImages(Syms(segments), [ROOT]);
      assert [ROOT][1..] == [];
      ExpectedPictures(ms, options, true);
      ImageSlots(segments);
      ImagesInOrder(ms, options, prompts, segments);
      KeptExactly(prompts.value);
    }
  }

  lemma MeaningDecides(ms: seq<Message>, options: Options, split: bool,
                       ms': seq<Message>, options': Options, split': bool)
    requires Meaning(ms, options, split) == Meaning(ms', options', split')
    ensures Print(ChatNodes(ms, options, split)) + GenerationSyms(options) ==
            Print(ChatNodes(ms', options', split')) + GenerationSyms(options')
  {
    ChatIsWritten(ms, options, split);
    ChatIsWritten(ms', options', split');
  }

  /** Two renderings have the same text, control tokens and image places exactly when their
      conversations say the same. */
  lemma SameTextExactly(ms: seq<Message>, options: Options, prompts: Prompts, segments: seq<Segment>,
                        ms': seq<Message>, options': Options, prompts': Prompts, segments': seq<Segment>)
    requires Encode(ms, options, prompts) == Ok(segments) && GoodPrompts(prompts)
    requires Encode(ms', options', prompts') == Ok(segments') && GoodPrompts(prompts')
    ensures Syms(segments) == Syms(segments') <==>
            Meaning(ms, options, prompts.Some?) == Meaning(ms', options', prompts'.Some?)
  {
    EncodedSyms(ms, options, prompts, segments);
    EncodedSyms(ms', options', prompts', segments');
    Decodes(ms, options, prompts, segments);
    Decodes(ms', options', prompts', segments');
    if Meaning(ms, options, prompts.Some?) == Meaning(ms', options', prompts'.Some?) {
      MeaningDecides(ms, options, prompts.Some?, ms', options', prompts'.Some?);
    }
  }

  /** Conversations that render to the same segments say the same, and were given the same prompts. */
  lemma SameSegmentsSameConversation(ms: seq<Message>, options: Options, prompts: Prompts,
                                     ms': seq<Message>, options': Options, prompts': Prompts, segments: seq<Segment>)
    requires Encode(ms, options, prompts) == Ok(segments) == Encode(ms', options', prompts')
    requires GoodPrompts(prompts) && GoodPrompts(prompts')
    ensures Meaning(ms, options, prompts.Some?) == Meaning(ms', options', prompts'.Some?)
    ensures prompts.Some? && prompts'.Some? ==> prompts == prompts'
  {
    SameTextExactly(ms, options, prompts, segments, ms', options', prompts', segments);
    ImagesInOrder(ms, options, prompts, segments);
    ImagesInOrder(ms', options', prompts', segments);
  }

  // ----- The image checks

  predicate NoFailure(pieces: seq<Piece>) {
    forall i | 0 <= i < |pieces| :: !pieces[i].Fail?
  }

  lemma {:induction false} WithoutPromptsExactly(index: nat, pieces: seq<Piece>)
    ensures Fill(None, index, pieces).Ok? <==> NoFailure(pieces)
    decreases |pieces|
  {
    if |pieces| > 0 {
      var first := FillPiece(None, index, pieces[0]);
      FirstOrRest(pieces);
      if first.Ok? {
        WithoutPromptsExactly(first.value.1, pieces[1..]);
      }
    }
  }

  lemma FirstOrRest(pieces: seq<Piece>)
    requires |pieces| > 0
    ensures NoFailure(pieces) <==> !pieces[0].Fail? && NoFailure(pieces[1..])
  {
    if !pieces[0].Fail? && NoFailure(pieces[1..]) {
      forall i | 0 <= i < |pieces| ensures !pieces[i].Fail? {
        assert i > 0 ==> pieces[i] == pieces[1..][i - 1];
      }
    }
  }

  lemma {:induction false} JoinedSlots(parts: seq<string>)
    requires |parts| > 0
    ensures Slots(Print(Joined(parts))) == |parts| - 1
  {
    PrintText(parts[0]);
    NoSlotsInChars(parts[0]);
    if |parts| > 1 {
      JoinedSlots(parts[1..]);
      PrintConcat([Picture], Joined(parts[1..]));
      PrintConcat(TextNodes(parts[0], false), [Picture] + Joined(parts[1..]));
      SlotsConcat(Print([Picture]), Print(Joined(parts[1..])));
      SlotsConcat(Print(TextNodes(parts[0], false)), Print([Picture] + Joined(parts[1..])));
      PrintOne(Picture);
      assert [Slot][1..] == [];
    }
  }

  lemma {:induction false} PartsExactly(list: seq<string>, index: nat, parts: seq<string>)
    requires |parts| > 0 && index <= |list|
    ensures FillParts(Some(list), index, parts).Ok? <==> index + |parts| - 1 <= |list|
    decreases |parts|
  {
    if |parts| > 1 && index < |list| {
      PartsExactly(list, index + 1, parts[1..]);
    }
  }

  lemma PieceExactly(list: seq<string>, index: nat, piece: Piece)
    requires index <= |list| && NoImages([piece])
    ensures FillPiece(Some(list), index, piece).Ok?
            <==> !piece.Fail? && index + Slots(PieceSyms(piece, true)) <= |list|
  {
    match piece
    case Done(segment) =>
      assert [piece][0].Done? ==> SegmentImages(segment) == [];
      ImageSlots([segment]);
      assert [segment][1..] == [] && SegmentSyms(segment) + [] == SegmentSyms(segment);
    case UserText(text) =>
      SplitIsJoined(text);
      JoinedSlots(Split(text));
      PartsExactly(list, index, Split(text));
    case Image =>
      assert [Slot][1..] == [];
    case Fail(_) =>
  }

  lemma {:induction false} WithPromptsExactly(list: seq<string>, index: nat, pieces: seq<Piece>)
    requires index <= |list| && NoImages(pieces)
    ensures Fill(Some(list), index, pieces).Ok?
            <==> NoFailure(pieces) && index + Slots(PiecesSyms(pieces, true)) <= |list|
    decreases |pieces|
  {
    if |pieces| > 0 {
      var first := FillPiece(Some(list), index, pieces[0]);
      FirstOrRest(pieces);
      SlotsConcat(PieceSyms(pieces[0], true), PiecesSyms(pieces[1..], true));
      FillsPiece(list, index, pieces[0]);
      PieceExactly(list, index, pieces[0]);
      if first.Ok? {
        WithPromptsExactly(list, first.value.1, pieces[1..]);
      }
    }
  }

  /** For a conversation that renders without prompts, rendering with prompts succeeds exactly when
      there are as many as images: image parts, and placeholders in rendered text. */
  lemma ImageChecksExactly(ms: seq<Message>, options: Options, list: seq<string>)
    ensures Encode(ms, options, Some(list)).Ok?
            <==> Encode(ms, options, None).Ok? && |list| == Pictures(ChatNodes(ms, options, true))
  {
    var pieces := ChatPieces(ms, options);
    ChatSyms(ms, options, true);
    ExpectedPictures(ms, options, true);
    WithoutPromptsExactly(0, pieces);
    WithPromptsExactly(list, 0, pieces);
    FillsPieces(list, 0, pieces);
  }
}
