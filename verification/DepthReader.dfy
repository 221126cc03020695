/**
  The streaming JSON depth guard (maxDepthReader of internal/api/rest.go).

  The reader looks at bytes only, in whatever chunks they arrive, and knows
  nothing of the grammar. The theorems relate it to JSON documents: a document is
  a tree, its text is printed from the tree, and its depth is the tree's.
 */
module DepthReader {
  import opened Options

  newtype byte = x: int | 0 <= x < 256

  const MAX_DEPTH := 32

  const QUOTE: byte := '"' as byte
  const BACKSLASH: byte := '\\' as byte
  const OPEN_BRACKET: byte := '[' as byte
  const CLOSE_BRACKET: byte := ']' as byte
  const OPEN_BRACE: byte := '{' as byte
  const CLOSE_BRACE: byte := '}' as byte

  // ---------------------------------------------------------------------
  // The scanner
  // ---------------------------------------------------------------------

  datatype Scan = Scan(depth: int, inString: bool, escaped: bool)

  predicate Opens(b: byte)
  {
    b == OPEN_BRACKET || b == OPEN_BRACE
  }

  predicate Closes(b: byte)
  {
    b == CLOSE_BRACKET || b == CLOSE_BRACE
  }

  predicate Exceeds(s: Scan, b: byte)
  {
    !s.inString && Opens(b) && s.depth + 1 > MAX_DEPTH
  }

  function Step(s: Scan, b: byte): Scan
  {
    if s.inString then
      if s.escaped then s.(escaped := false)
      else if b == BACKSLASH then s.(escaped := true)
      else if b == QUOTE then s.(inString := false)
      else s
    else if b == QUOTE then s.(inString := true)
    else if Opens(b) then s.(depth := s.depth + 1)
    else if Closes(b) then s.(depth := s.depth - 1)
    else s
  }

  /** How many bytes get through before the first one that exceeds the limit. */
  function Passed(s: Scan, bytes: seq<byte>): (n: nat)
    ensures n <= |bytes|
    decreases |bytes|
  {
    if bytes == [] || Exceeds(s, bytes[0]) then 0 else 1 + Passed(Step(s, bytes[0]), bytes[1..])
  }

  function After(s: Scan, bytes: seq<byte>): Scan
    decreases |bytes|
  {
    if bytes == [] then s else After(Step(s, bytes[0]), bytes[1..])
  }

  lemma {:induction false} Chunked(s: Scan, a: seq<byte>, b: seq<byte>)
    ensures Passed(s, a + b) == if Passed(s, a) < |a| then Passed(s, a) else |a| + Passed(After(s, a), b)
    ensures After(s, a + b) == After(After(s, a), b)
    decreases |a|
  {
    if a == [] {
      assert a + b == b;
    } else {
      assert (a + b)[1..] == a[1..] + b;
      Chunked(Step(s, a[0]), a[1..], b);
    }
  }

  lemma ScanUnfolds(s: Scan, bytes: seq<byte>, i: nat)
    requires i < |bytes|
    ensures Passed(s, bytes[i..]) == if Exceeds(s, bytes[i]) then 0 else 1 + Passed(Step(s, bytes[i]), bytes[i + 1..])
    ensures After(s, bytes[i..]) == After(Step(s, bytes[i]), bytes[i + 1..])
  {
    assert bytes[i..][1..] == bytes[i + 1..];
  }

  // ---------------------------------------------------------------------
  // The reader
  // ---------------------------------------------------------------------

  datatype Outcome = Ok | Upstream | TooDeep

  const START := Scan(0, false, false)

  class Reader {
    var depth: int
    var inString: bool
    var escaped: bool
    var failed: bool

    constructor ()
      ensures State() == START && !failed
    {
      depth, inString, escaped, failed := 0, false, false, false;
    }

    function State(): Scan
      reads this
    {
      Scan(depth, inString, escaped)
    }

    /** chunk is what the wrapped reader returned, upstream whether it also returned an error. */
    method Read(chunk: seq<byte>, upstream: bool) returns (n: nat, err: Outcome)
      modifies this
      ensures old(failed) ==> n == 0 && err == TooDeep && failed
      ensures !old(failed) ==> n == Passed(old(State()), chunk) && failed == (n < |chunk|)
      ensures !failed ==> State() == After(old(State()), chunk)
      ensures !old(failed) ==> err == if failed then TooDeep else if upstream then Upstream else Ok
    {
      if failed {
        return 0, TooDeep;
      }
      var i := 0;
      while i < |chunk|
        invariant 0 <= i <= |chunk| && !failed
        invariant Passed(old(State()), chunk) == i + Passed(State(), chunk[i..])
        invariant After(old(State()), chunk) == After(State(), chunk[i..])
      {
        var b := chunk[i];
        ScanUnfolds(State(), chunk, i);
        ghost var next := Step(State(), b);
        if inString {
          if escaped {
            escaped := false;
          } else if b == BACKSLASH {
            escaped := true;
          } else if b == QUOTE {
            inString := false;
          }
        } else if b == QUOTE {
          inString := true;
        } else if b == OPEN_BRACKET || b == OPEN_BRACE {
          if depth + 1 > MAX_DEPTH {
            depth := depth + 1;
            failed := true;
            return i, TooDeep;
          }
          depth := depth + 1;
        } else if b == CLOSE_BRACKET || b == CLOSE_BRACE {
          depth := depth - 1;
        }
        assert State() == next;
        i := i + 1;
      }
      return |chunk|, if upstream then Upstream else Ok;
    }
  }

  function Flatten(chunks: seq<seq<byte>>): seq<byte>
  {
    if chunks == [] then [] else Flatten(chunks[..|chunks| - 1]) + chunks[|chunks| - 1]
  }

  /** A whole stream: however it is chunked, what comes out depends only on the bytes. */
  method Drain(chunks: seq<seq<byte>>) returns (delivered: seq<byte>)
    ensures var all := Flatten(chunks); delivered == all[..Passed(START, all)]
  {
    var reader := new Reader();
    delivered := [];
    for k := 0 to |chunks|
      invariant var all := Flatten(chunks[..k]);
                && delivered == all[..Passed(START, all)]
                && reader.failed == (Passed(START, all) < |all|)
                && (!reader.failed ==> reader.State() == After(START, all))
    {
      ghost var all := Flatten(chunks[..k]);
      assert chunks[..k + 1][..k] == chunks[..k];
      Chunked(START, all, chunks[k]);
      var n, err := reader.Read(chunks[k], false);
      delivered := delivered + chunks[k][..n];
      assert Flatten(chunks[..k + 1]) == all + chunks[k];
    }
    assert chunks[..|chunks|] == chunks;
  }

  // ---------------------------------------------------------------------
  // Documents
  // ---------------------------------------------------------------------

  /** A character of a string, or an escape: a backslash and whatever follows it. */
  datatype Part = Plain(b: byte) | Escape(b: byte)

  /**
    Text between structural bytes (white space, commas, colons, numbers, literals)
    is any run of neutral bytes, and a string is any sequence of parts, so every
    text of RFC 8259 is the print of a tree; some trees print other texts too.
   */
  datatype Value = Scalar(text: seq<byte>) | Str(parts: seq<Part>) | Container(isObject: bool, body: Body)

  datatype Body = Blank(ws: seq<byte>) | Filled(items: Items)

  datatype Items = Last(item: Item) | Next(item: Item, comma: seq<byte>, more: Items)

  /** name: the member name of an object, with the text up to it. */
  datatype Item = Item(name: Label, before: seq<byte>, value: Value, after: seq<byte>)

  datatype Label = NoLabel | Label(before: seq<byte>, parts: seq<Part>)

  predicate Neutral(text: seq<byte>)
  {
    forall i :: 0 <= i < |text| ==> text[i] != QUOTE && !Opens(text[i]) && !Closes(text[i])
  }

  predicate GoodParts(parts: seq<Part>)
  {
    forall i :: 0 <= i < |parts| && parts[i].Plain? ==> parts[i].b != QUOTE && parts[i].b != BACKSLASH
  }

  predicate GoodValue(v: Value)
  {
    match v
    case Scalar(text) => Neutral(text)
    case Str(parts) => GoodParts(parts)
    case Container(_, body) => GoodBody(body)
  }

  predicate GoodBody(body: Body)
  {
    match body case Blank(ws) => Neutral(ws) case Filled(items) => GoodItems(items)
  }

  predicate GoodItems(items: Items)
  {
    match items
    case Last(item) => GoodItem(item)
    case Next(item, comma, more) => GoodItem(item) && Neutral(comma) && GoodItems(more)
  }

  predicate GoodItem(item: Item)
  {
    GoodLabel(item.name) && Neutral(item.before) && GoodValue(item.value) && Neutral(item.after)
  }

  predicate GoodLabel(name: Label)
  {
    name.Label? ==> Neutral(name.before) && GoodParts(name.parts)
  }

  // Printing ------------------------------------------------------------

  function PrintParts(parts: seq<Part>): seq<byte>
  {
    if parts == [] then []
    else (match parts[0] case Plain(b) => [b] case Escape(b) => [BACKSLASH, b]) + PrintParts(parts[1..])
  }

  function PrintString(parts: seq<Part>): seq<byte>
  {
    [QUOTE] + PrintParts(parts) + [QUOTE]
  }

  function Opening(isObject: bool): byte
  {
    if isObject then OPEN_BRACE else OPEN_BRACKET
  }

  function Closing(isObject: bool): byte
  {
    if isObject then CLOSE_BRACE else CLOSE_BRACKET
  }

  function Print(v: Value): seq<byte>
  {
    match v
    case Scalar(text) => text
    case Str(parts) => PrintString(parts)
    case Container(isObject, body) => [Opening(isObject)] + (PrintBody(body) + [Closing(isObject)])
  }

  function PrintBody(body: Body): seq<byte>
  {
    match body case Blank(ws) => ws case Filled(items) => PrintItems(items)
  }

  function PrintItems(items: Items): seq<byte>
  {
    match items
    case Last(item) => PrintItem(item)
    case Next(item, comma, more) => PrintItem(item) + (comma + PrintItems(more))
  }

  function PrintItem(item: Item): seq<byte>
  {
    PrintLabel(item.name) + (item.before + (Print(item.value) + item.after))
  }

  function PrintLabel(name: Label): seq<byte>
  {
    match name case NoLabel => [] case Label(before, parts) => before + PrintString(parts)
  }

  // Depth ---------------------------------------------------------------

  function Max(a: nat, b: nat): nat
  {
    if a < b then b else a
  }

  function Depth(v: Value): nat
  {
    match v
    case Scalar(_) => 0
    case Str(_) => 0
    case Container(_, body) => 1 + match body { case Blank(_) => 0 case Filled(items) => ItemsDepth(items) }
  }

  function ItemsDepth(items: Items): nat
  {
    match items
    case Last(item) => Depth(item.value)
    case Next(item, _, more) => Max(Depth(item.value), ItemsDepth(more))
  }

  /** Position in the text of the first bracket nested deeper than room levels, in reading order. */
  function FirstTooDeep(v: Value, room: nat): Option<nat>
  {
    match v
    case Scalar(_) => None
    case Str(_) => None
    case Container(_, body) =>
      if room == 0 then Some(0)
      else match body case Blank(_) => None case Filled(items) => Shift(1, ItemsTooDeep(items, room - 1))
  }

  function ItemsTooDeep(items: Items, room: nat): Option<nat>
  {
    match items
    case Last(item) => ItemTooDeep(item, room)
    case Next(item, comma, more) =>
      Earlier(ItemTooDeep(item, room), Shift(|PrintItem(item)| + |comma|, ItemsTooDeep(more, room)))
  }

  function ItemTooDeep(item: Item, room: nat): Option<nat>
  {
    Shift(|PrintLabel(item.name)| + |item.before|, FirstTooDeep(item.value, room))
  }

  function Shift(n: nat, p: Option<nat>): Option<nat>
  {
    match p case Some(i) => Some(n + i) case None => None
  }

  function Earlier(a: Option<nat>, b: Option<nat>): Option<nat>
  {
    if a.Some? then a else b
  }

  lemma {:induction false} TooDeepIffDeep(v: Value, room: nat)
    ensures FirstTooDeep(v, room).Some? <==> Depth(v) > room
  {
    if v.Container? && v.body.Filled? && room > 0 {
      ItemsTooDeepIffDeep(v.body.items, room - 1);
    }
  }

  lemma {:induction false} ItemsTooDeepIffDeep(items: Items, room: nat)
    ensures ItemsTooDeep(items, room).Some? <==> ItemsDepth(items) > room
  {
    TooDeepIffDeep(items.item.value, room);
    if items.Next? {
      ItemsTooDeepIffDeep(items.more, room);
    }
  }

  // ---------------------------------------------------------------------
  // Scanning a printed document
  // ---------------------------------------------------------------------

  /** Scanning bytes from s stops at stop, or gets through and ends in s'. */
  ghost predicate Scans(bytes: seq<byte>, s: Scan, s': Scan, stop: Option<nat>)
  {
    match stop
    case Some(p) => p < |bytes| && Passed(s, bytes) == p
    case None => Passed(s, bytes) == |bytes| && After(s, bytes) == s'
  }

  lemma ScansThen(a: seq<byte>, b: seq<byte>, s: Scan, mid: Scan, s': Scan, x: Option<nat>, y: Option<nat>)
    requires Scans(a, s, mid, x) && Scans(b, mid, s', y)
    ensures Scans(a + b, s, s', Earlier(x, Shift(|a|, y)))
  {
    Chunked(s, a, b);
  }

  lemma {:induction false} ScansNeutral(text: seq<byte>, s: Scan)
    requires Neutral(text) && !s.inString
    ensures Scans(text, s, s, None)
  {
    if text != [] {
      ScansNeutral(text[1..], s);
    }
  }

  lemma {:induction false} ScansParts(parts: seq<Part>, s: Scan)
    requires GoodParts(parts) && s.inString && !s.escaped
    ensures Scans(PrintParts(parts), s, s, None)
  {
    if parts != [] {
      ScansParts(parts[1..], s);
      var first := match parts[0] case Plain(b) => [b] case Escape(b) => [BACKSLASH, b];
      if parts[0].Plain? {
        ScansByte(parts[0].b, s);
      } else {
        var escaping := s.(escaped := true);
        ScansByte(BACKSLASH, s);
        ScansByte(parts[0].b, escaping);
        ScansThen([BACKSLASH], [parts[0].b], s, escaping, s, None, None);
        assert first == [BACKSLASH] + [parts[0].b];
      }
      ScansThen(first, PrintParts(parts[1..]), s, s, s, None, None);
    }
  }

  lemma ScansByte(b: byte, s: Scan)
    requires !Exceeds(s, b)
    ensures Scans([b], s, Step(s, b), None)
  {
    assert [b][1..] == [];
  }

  lemma ScansString(parts: seq<Part>, s: Scan)
    requires GoodParts(parts) && !s.inString && !s.escaped
    ensures Scans(PrintString(parts), s, s, None)
  {
    var inside := s.(inString := true);
    ScansByte(QUOTE, s);
    ScansParts(parts, inside);
    ScansThen([QUOTE], PrintParts(parts), s, inside, inside, None, None);
    ScansByte(QUOTE, inside);
    ScansThen([QUOTE] + PrintParts(parts), [QUOTE], s, inside, s, None, None);
  }

  lemma ScansLabel(name: Label, s: Scan)
    requires GoodLabel(name) && !s.inString && !s.escaped
    ensures Scans(PrintLabel(name), s, s, None)
  {
    if name.Label? {
      ScansNeutral(name.before, s);
      ScansString(name.parts, s);
      ScansThen(name.before, PrintString(name.parts), s, s, s, None, None);
    }
  }

  /** A well-formed value is balanced, and stops exactly at its first bracket past the limit. */
  lemma {:induction false} ScansValue(v: Value, s: Scan)
    requires GoodValue(v) && !s.inString && !s.escaped && 0 <= s.depth <= MAX_DEPTH
    ensures Scans(Print(v), s, s, FirstTooDeep(v, MAX_DEPTH - s.depth))
  {
    match v
    case Scalar(text) => ScansNeutral(text, s);
    case Str(parts) => ScansString(parts, s);
    case Container(isObject, body) =>
      if s.depth < MAX_DEPTH {
        var inner := s.(depth := s.depth + 1);
        ScansByte(Opening(isObject), s);
        var stop := match body case Blank(_) => None case Filled(items) => ItemsTooDeep(items, MAX_DEPTH - inner.depth);
        match body {
          case Blank(ws) => ScansNeutral(ws, inner);
          case Filled(items) => ScansItems(items, inner);
        }
        ScansByte(Closing(isObject), inner);
        ScansThen(PrintBody(body), [Closing(isObject)], inner, inner, s, stop, None);
        ScansThen([Opening(isObject)], PrintBody(body) + [Closing(isObject)], s, inner, s, None, stop);
      }
  }

  lemma {:induction false} ScansItems(items: Items, s: Scan)
    requires GoodItems(items) && !s.inString && !s.escaped && 0 <= s.depth <= MAX_DEPTH
    ensures Scans(PrintItems(items), s, s, ItemsTooDeep(items, MAX_DEPTH - s.depth))
  {
    var room := MAX_DEPTH - s.depth;
    ScansItem(items.item, s);
    if items.Next? {
      ScansNeutral(items.comma, s);
      ScansItems(items.more, s);
      ScansThen(items.comma, PrintItems(items.more), s, s, s, None, ItemsTooDeep(items.more, room));
      ScansThen(PrintItem(items.item), items.comma + PrintItems(items.more), s, s, s,
                ItemTooDeep(items.item, room), Shift(|items.comma|, ItemsTooDeep(items.more, room)));
    }
  }

  lemma {:induction false} ScansItem(item: Item, s: Scan)
    requires GoodItem(item) && !s.inString && !s.escaped && 0 <= s.depth <= MAX_DEPTH
    ensures Scans(PrintItem(item), s, s, ItemTooDeep(item, MAX_DEPTH - s.depth))
  {
    var stop := FirstTooDeep(item.value, MAX_DEPTH - s.depth);
    ScansLabel(item.name, s);
    ScansNeutral(item.before, s);
    ScansValue(item.value, s);
    ScansNeutral(item.after, s);
    ScansThen(Print(item.value), item.after, s, s, s, stop, None);
    ScansThen(item.before, Print(item.value) + item.after, s, s, s, None, stop);
    ScansThen(PrintLabel(item.name), item.before + (Print(item.value) + item.after), s, s, s, None,
              Shift(|item.before|, stop));
  }

  /**
    A JSON text (white space, a value, white space) passes unchanged exactly when
    it nests at most 32 levels; otherwise exactly the bytes before the first
    bracket that goes deeper are delivered.
   */
  lemma PassesIffShallow(before: seq<byte>, v: Value, after: seq<byte>)
    requires Neutral(before) && GoodValue(v) && Neutral(after)
    ensures var text := before + (Print(v) + after);
            && (Passed(START, text) == |text| <==> Depth(v) <= 32)
            && (Depth(v) > 32 ==>
                  FirstTooDeep(v, 32).Some? && Passed(START, text) == |before| + FirstTooDeep(v, 32).value)
  {
    var stop := FirstTooDeep(v, MAX_DEPTH);
    ScansNeutral(before, START);
    ScansValue(v, START);
    ScansNeutral(after, START);
    ScansThen(Print(v), after, START, START, START, stop, None);
    ScansThen(before, Print(v) + after, START, START, START, None, stop);
    TooDeepIffDeep(v, MAX_DEPTH);
  }
}
