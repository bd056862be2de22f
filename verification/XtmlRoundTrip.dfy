/** Rendering is uniquely decodable, and the image checks count exactly the images. */
module XtmlRoundTrip {
  import opened Prelude
  import opened XtmlMessages
  import opened XtmlSegments
  import opened XtmlEncoder
  import opened XtmlParsing
  import opened XtmlForest

  // ----- Counting images

  function Slots(s: seq<Sym>): nat {
    if |s| == 0 then 0 else (if s[0] == Slot then 1 else 0) + Slots(s[1..])
  }

  lemma {:induction false} SlotsConcat(a: seq<Sym>, b: seq<Sym>)
    ensures Slots(a + b) == Slots(a) + Slots(b)
  {
    if |a| == 0 {
      assert a + b == b;
    } else {
      assert (a + b)[0] == a[0] && (a + b)[1..] == a[1..] + b;
      SlotsConcat(a[1..], b);
    }
  }

  lemma {:induction false} NoSlotsInChars(s: string)
    ensures Slots(Chars(s)) == 0
  {
    if s != "" {
      NoSlotsInChars(s[1..]);
      assert Chars(s)[1..] == Chars(s[1..]);
    }
  }

  /** How many images a tree has. */
  function Pictures(nodes: seq<Node>): nat
    decreases nodes
  {
    if |nodes| == 0 then 0 else NodePictures(nodes[0]) + Pictures(nodes[1..])
  }

  function NodePictures(node: Node): nat
    decreases node
  {
    match node
    case Picture => 1
    case Elem(_, _, body) => Pictures(body)
    case _ => 0
  }

  function StackPictures(stack: seq<Frame>): nat {
    if |stack| == 0 then 0 else Pictures(stack[0].body) + StackPictures(stack[1..])
  }

  lemma {:induction false} PicturesConcat(a: seq<Node>, b: seq<Node>)
    ensures Pictures(a + b) == Pictures(a) + Pictures(b)
  {
    if |a| == 0 {
      assert a + b == b;
    } else {
      assert (a + b)[0] == a[0] && (a + b)[1..] == a[1..] + b;
      PicturesConcat(a[1..], b);
    }
  }

  lemma OnePicture(node: Node)
    ensures Pictures([node]) == NodePictures(node)
  {
    assert [node][1..] == [];
  }

  lemma {:induction false} PrintedSlots(nodes: seq<Node>)
    ensures Slots(Print(nodes)) == Pictures(nodes)
    decreases nodes, 1
  {
    if |nodes| > 0 {
      PrintedNodeSlots(nodes[0]);
      PrintedSlots(nodes[1..]);
      SlotsConcat(PrintNode(nodes[0]), Print(nodes[1..]));
    }
  }

  lemma {:induction false} PrintedNodeSlots(node: Node)
    ensures Slots(PrintNode(node)) == NodePictures(node)
    decreases node, 0
  {
    if node.Elem? {
      var opening, closing := OpenSyms(node.tag, node.attrs), CloseSyms(node.tag);
      PrintedSlots(node.body);
      TagSlots(node.tag, node.attrs);
      SlotsConcat(Print(node.body), closing);
      SlotsConcat(opening, Print(node.body) + closing);
    }
  }

  lemma TagSlots(tag: string, attrs: Attrs)
    ensures Slots(OpenSyms(tag, attrs)) == 0 && Slots(CloseSyms(tag)) == 0
  {
    NoSlotsInChars(tag + AttrText(attrs));
    NoSlotsInChars(tag);
    SlotsConcat(Chars(tag + AttrText(attrs)), [Sep]);
    SlotsConcat(Chars(tag), [Sep]);
    assert OpenSyms(tag, attrs)[1..] == Chars(tag + AttrText(attrs)) + [Sep];
    assert CloseSyms(tag)[1..] == Chars(tag) + [Sep];
    assert [Sep][1..] == [];
  }

  lemma {:induction false} ReadCharsSlots(s: seq<Sym>)
    ensures Slots(ReadChars(s).1) == Slots(s)
  {
    if |s| > 0 && s[0].Ch? {
      ReadCharsSlots(s[1..]);
    }
  }

  lemma AddPictures(stack: Stack, node: Node)
    ensures StackPictures(Add(stack, [node])) == StackPictures(stack) + NodePictures(node)
  {
    PicturesConcat(stack[0].body, [node]);
    OnePicture(node);
    assert Add(stack, [node])[1..] == stack[1..];
  }

  /** The stack machine neither loses nor invents an image. */
  lemma {:induction false} RunKeepsImages(s: seq<Sym>, stack: Stack)
    requires Run(s, stack).Some?
    ensures StackPictures(Run(s, stack).value) == StackPictures(stack) + Slots(s)
    decreases |s|
  {
    if |s| > 0 {
      match s[0]
      case Ch(c) =>
        AddPictures(stack, Chr(c));
        RunKeepsImages(s[1..], Add(stack, [Chr(c)]));
      case Slot =>
        AddPictures(stack, Picture);
        RunKeepsImages(s[1..], Add(stack, [Picture]));
      case Eom =>
        AddPictures(stack, EndOfMessage);
        RunKeepsImages(s[1..], Add(stack, [EndOfMessage]));
      case Open =>
        var (text, rest) := ReadChars(s[1..]);
        var header := ParseHeader(text).value;
        ReadCharsSlots(s[1..]);
        var inside: Stack := [Frame(header.0, header.1, [])] + stack;
        assert inside[1..] == stack;
        RunKeepsImages(rest[1..], inside);
      case Close =>
        var (text, rest) := ReadChars(s[1..]);
        ReadCharsSlots(s[1..]);
        var node := Elem(stack[0].tag, stack[0].attrs, stack[0].body);
        AddPictures(stack[1..], node);
        RunKeepsImages(rest[1..], Add(stack[1..], [node]));
      case Sep =>
    }
  }

  lemma {:induction false} ImageSlots(segments: seq<Segment>)
    ensures Slots(Syms(segments)) == |Images(segments)|
  {
    if |segments| > 0 {
      ImageSlots(segments[1..]);
      SlotsConcat(SegmentSyms(segments[0]), Syms(segments[1..]));
      NoSlotsInChars(segments[0].text);
      assert [Slot][1..] == [] && [Open][1..] == [] && [Close][1..] == [] && [Sep][1..] == [] && [Eom][1..] == [];
    }
  }

  // ----- Prompts

  /** A prompt that can be told from structure: not empty, and not a control token. */
  predicate Good(prompt: string) {
    prompt != "" && !IsControlToken(prompt)
  }

  predicate AllGood(list: seq<string>) {
    forall i | 0 <= i < |list| :: Good(list[i])
  }

  function Kept(list: seq<string>): seq<string> {
    if |list| == 0 then [] else (if Good(list[0]) then [list[0]] else []) + Kept(list[1..])
  }

  lemma {:induction false} KeptConcat(a: seq<string>, b: seq<string>)
    ensures Kept(a + b) == Kept(a) + Kept(b)
  {
    if |a| == 0 {
      assert a + b == b;
    } else {
      assert (a + b)[0] == a[0] && (a + b)[1..] == a[1..] + b;
      KeptConcat(a[1..], b);
    }
  }

  lemma {:induction false} KeptExactly(list: seq<string>)
    ensures |Kept(list)| <= |list|
    ensures |Kept(list)| == |list| <==> AllGood(list)
    ensures AllGood(list) ==> Kept(list) == list
  {
    if |list| > 0 {
      KeptExactly(list[1..]);
      assert list == [list[0]] + list[1..];
      assert AllGood(list) <==> Good(list[0]) && AllGood(list[1..]);
    }
  }

  lemma PromptSyms(prompt: string)
    ensures Images(Control(prompt)) == Kept([prompt])
    ensures Good(prompt) ==> Syms(Control(prompt)) == [Slot]
  {
    assert [prompt][1..] == [];
    if prompt != "" {
      SymsOfControl(prompt);
    }
  }

  // ----- Text with placeholders

  /** The parts with an image between each two. */
  function Joined(parts: seq<string>): seq<Node>
    requires |parts| > 0
  {
    if |parts| == 1 then TextNodes(parts[0], false)
    else TextNodes(parts[0], false) + ([Picture] + Joined(parts[1..]))
  }

  lemma {:induction false} SplitIsJoined(text: string)
    ensures TextNodes(text, true) == Joined(Split(text))
    decreases |text|
  {
    if text == "" {
    } else if IMAGE_PLACEHOLDER <= text {
      var rest := Split(text[|IMAGE_PLACEHOLDER|..]);
      SplitIsJoined(text[|IMAGE_PLACEHOLDER|..]);
      assert Split(text)[1..] == rest;
      assert TextNodes("", false) + ([Picture] + Joined(rest)) == [Picture] + Joined(rest);
    } else {
      var rest := Split(text[1..]);
      SplitIsJoined(text[1..]);
      assert Split(text)[0][1..] == rest[0] && Split(text)[1..] == rest[1..];
      if |rest| > 1 {
        assert [Chr(text[0])] + (TextNodes(rest[0], false) + ([Picture] + Joined(rest[1..])))
            == [Chr(text[0])] + TextNodes(rest[0], false) + ([Picture] + Joined(rest[1..]));
      }
    }
  }

  /** What filling gives: so many prompts, the images of those that can be seen, and if all can, the symbols. */
  ghost predicate Fills(filled: Filled, list: seq<string>, index: nat, syms: seq<Sym>) {
    filled.Ok? ==>
      var (segments, after) := filled.value;
      && index <= after == index + Slots(syms)
      && (index <= |list| ==> after <= |list|)
      && (after <= |list| ==> Images(segments) == Kept(list[index..after]))
      && (after <= |list| && AllGood(list[index..after]) ==> Syms(segments) == syms)
  }

  lemma FillsAppend(list: seq<string>, index: nat, first: (seq<Segment>, nat), rest: Filled, a: seq<Sym>, b: seq<Sym>)
    requires Fills(Ok(first), list, index, a) && Fills(rest, list, first.1, b) && index <= |list|
    ensures Fills(Continue(first.0, rest), list, index, a + b)
  {
    SlotsConcat(a, b);
    if rest.Ok? {
      var mid, after := first.1, rest.value.1;
      SymsConcat(first.0, rest.value.0);
      assert list[index..after] == list[index..mid] + list[mid..after];
      KeptConcat(list[index..mid], list[mid..after]);
      AllGoodConcat(list[index..mid], list[mid..after]);
    }
  }

  lemma AllGoodConcat(a: seq<string>, b: seq<string>)
    ensures AllGood(a + b) ==> AllGood(a) && AllGood(b)
  {
    if AllGood(a + b) {
      assert forall i | 0 <= i < |a| :: (a + b)[i] == a[i];
      assert forall i | 0 <= i < |b| :: (a + b)[|a| + i] == b[i];
    }
  }

  lemma FillsImage(list: seq<string>, index: nat)
    requires index <= |list|
    ensures Fills(FillImage(Some(list), index), list, index, [Slot])
  {
    assert [Slot][1..] == [];
    if index < |list| {
      PromptSyms(list[index]);
      assert list[index..index + 1] == [list[index]];
      assert AllGood([list[index]]) ==> Good([list[index]][0]);
    }
  }

  lemma FillsPlain(list: seq<string>, index: nat, text: string)
    requires index <= |list|
    ensures Fills(Ok((Plain(text), index)), list, index, Print(TextNodes(text, false)))
  {
    SymsOfPlain(text);
    PrintText(text);
    NoSlotsInChars(text);
    assert list[index..index] == [];
  }

  lemma {:induction false} FillsParts(list: seq<string>, index: nat, parts: seq<string>)
    requires |parts| > 0 && index <= |list|
    ensures Fills(FillParts(Some(list), index, parts), list, index, Print(Joined(parts)))
    decreases |parts|
  {
    FillsPlain(list, index, parts[0]);
    if |parts| > 1 {
      var image := FillImage(Some(list), index);
      if image.Ok? {
        var text := Print(TextNodes(parts[0], false));
        var more := Print(Joined(parts[1..]));
        FillsImage(list, index);
        FillsAppend(list, index, (Plain(parts[0]), index), image, text, [Slot]);
        FillsParts(list, image.value.1, parts[1..]);
        FillsAppend(list, index, (Plain(parts[0]) + image.value.0, image.value.1),
                    FillParts(Some(list), image.value.1, parts[1..]), text + [Slot], more);
        PrintOne(Picture);
        PrintConcat([Picture], Joined(parts[1..]));
        PrintConcat(TextNodes(parts[0], false), [Picture] + Joined(parts[1..]));
        Inward(text, [Slot], more);
      }
    }
  }

  lemma FillsPiece(list: seq<string>, index: nat, piece: Piece)
    requires index <= |list| && NoImages([piece])
    ensures Fills(FillPiece(Some(list), index, piece), list, index, PieceSyms(piece, true))
  {
    match piece
    case Done(segment) =>
      assert [piece][0].Done? ==> SegmentImages(segment) == [];
      assert [segment][1..] == [] && SegmentSyms(segment) + [] == SegmentSyms(segment);
      assert list[index..index] == [];
      ImageSlots([segment]);
    case UserText(text) =>
      FillsParts(list, index, Split(text));
      SplitIsJoined(text);
    case Image => FillsImage(list, index);
    case Fail(_) =>
  }

  lemma {:induction false} FillsPieces(list: seq<string>, index: nat, pieces: seq<Piece>)
    requires index <= |list| && NoImages(pieces)
    ensures Fills(Fill(Some(list), index, pieces), list, index, PiecesSyms(pieces, true))
    decreases |pieces|
  {
    if |pieces| == 0 {
      assert list[index..index] == [];
    } else {
      FillsPiece(list, index, pieces[0]);
      var first := FillPiece(Some(list), index, pieces[0]);
      if first.Ok? {
        FillsPieces(list, first.value.1, pieces[1..]);
        FillsAppend(list, index, first.value, Fill(Some(list), first.value.1, pieces[1..]),
                    PieceSyms(pieces[0], true), PiecesSyms(pieces[1..], true));
      }
    }
  }
}
