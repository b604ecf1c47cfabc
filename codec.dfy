/**
 * The save file's text layout (GameSaver.writeLine, readLine, writeEntry, readEntry).
 * An entry is written as its tag line, its directive line, its child count in
 * decimal, and then each child: a leaf as its own line, a nested entry as the marker
 * line ENTRY followed by that entry. The file is its text plus a read position.
 */
module Codec {
  import opened Wrappers
  import opened Text
  import opened Tree

  /** The line that announces a nested entry. */
  const EntryMarker := "ENTRY"

  /** writeLine's text: the line, with a line break added unless it already ends in one. */
  function Line(s: string): (r: string)
    ensures '\n' !in s ==> r == s + "\n"
  {
    if |s| > 0 && s[|s| - 1] == '\n' then s else s + "\n"
  }

  /** A directive as writeLine writes it: str(None) for an entry that has none. */
  function DirectiveText(d: Option<string>): string {
    match d
    case None => "None"
    case Some(t) => t
  }

  /** writeEntry's output for one entry: its three header lines, then its children. */
  function Serialize(e: Entry): string
    decreases ItemsSize(e.children), 2
  {
    Header(e) + SerializeItems(e.children)
  }

  /** The tag line, the directive line and the child-count line. */
  function Header(e: Entry): string {
    Line(e.tag) + Line(DirectiveText(e.directive)) + Line(IntToString(|e.children|))
  }

  /** writeEntry's output for a data list, child after child. */
  function SerializeItems(items: seq<Item>): string
    decreases ItemsSize(items), 1
  {
    if items == [] then ""
    else
      var n := |items| - 1;
      SerializeItems(items[..n]) + ItemText(items[n])
  }

  /** One child: a leaf as its line, a nested entry after the marker line. */
  function ItemText(item: Item): string
    decreases ItemSize(item), 0
  {
    match item
    case Leaf(t) => Line(t)
    case Node(e) => Line(EntryMarker) + Serialize(e)
  }

  lemma {:induction false} SerializeItemsCons(items: seq<Item>)
    requires |items| > 0
    ensures SerializeItems(items) == ItemText(items[0]) + SerializeItems(items[1..])
    decreases |items|
  {
    var n := |items| - 1;
    if n > 0 {
      SerializeItemsCons(items[..n]);
      assert items[..n][1..] == items[1..][..n - 1];
      assert items[1..][n - 1] == items[n];
    } else {
      assert items[1..] == [];
    }
  }

  /**
   * readLine on the unread text: everything up to the first line break, which is
   * consumed and dropped; the rest of the text when there is none; "" once the
   * text is exhausted.
   */
  function NextLine(s: string): (r: (string, string))
    ensures '\n' !in r.0
    ensures |r.1| <= |s|
    ensures s == [] ==> r == ("", "")
    ensures s != [] ==> |r.1| < |s|
  {
    if s == [] then ("", "")
    else if s[0] == '\n' then ("", s[1..])
    else
      var (line, rest) := NextLine(s[1..]);
      ([s[0]] + line, rest)
  }

  /** A line written with writeLine is read back by readLine, and nothing after it is consumed. */
  lemma NextLineOfLine(t: string, rest: string)
    requires '\n' !in t
    ensures NextLine(Line(t) + rest) == (t, rest)
  {
    assert Line(t) + rest == t + ("\n" + rest);
    NextLineOfBreak(t, "\n" + rest);
  }

  lemma {:induction false} NextLineOfBreak(t: string, after: string)
    requires '\n' !in t && |after| > 0 && after[0] == '\n'
    ensures NextLine(t + after) == (t, after[1..])
  {
    if t == [] {
      assert t + after == after;
    } else {
      var s := t + after;
      NextLineOfBreak(t[1..], after);
      assert t[0] != '\n' by {
        assert t[0] in t;
      }
      assert s[0] == t[0] && s[1..] == t[1..] + after;
      assert [t[0]] + t[1..] == t;
    }
  }

  /** How readEntry fails: a child-count line that int() rejects. */
  datatype ReadError = BadCount(line: string)

  /**
   * readEntry on the unread text: the entry read and the text left after it. A count
   * line that is not an integer fails; a negative count reads no children.
   */
  function ParseEntry(s: string): (r: Result<(Entry, string), ReadError>)
    decreases |s|, 1, 0
    ensures r.Ok? ==> |r.value.1| <= |s| && r.value.0.directive.Some?
  {
    var (tag, s1) := NextLine(s);
    var (directive, s2) := NextLine(s1);
    var (count, s3) := NextLine(s2);
    match ParseInt(count)
    case None => Err(BadCount(count))
    case Some(n) => Assemble(tag, directive, ParseItems(s3, n))
  }

  /** The entry made of the header lines and the children read after them. */
  function Assemble(tag: string, directive: string, r: Result<(seq<Item>, string), ReadError>): Result<(Entry, string), ReadError> {
    match r
    case Err(err) => Err(err)
    case Ok((items, rest)) => Ok((Entry(tag, Some(directive), items), rest))
  }

  /** readEntry's loop: n children, read one after the other. */
  function ParseItems(s: string, n: int): (r: Result<(seq<Item>, string), ReadError>)
    decreases |s|, 0, if n < 0 then 0 else n
    ensures r.Ok? ==> |r.value.1| <= |s| && |r.value.0| == if n < 0 then 0 else n
  {
    if n <= 0 then Ok(([], s))
    else
      match ParseDatum(s)
      case Err(err) => Err(err)
      case Ok((item, s1)) => Prepend([item], ParseItems(s1, n - 1))
  }

  /** One child: the marker line and a nested entry, or any other line as a leaf. */
  function ParseDatum(s: string): (r: Result<(Item, string), ReadError>)
    decreases |s|, 0, 0
    ensures r.Ok? ==> |r.value.1| <= |s|
  {
    var (line, s1) := NextLine(s);
    if line == EntryMarker then
      match ParseEntry(s1)
      case Err(err) => Err(err)
      case Ok((e, s2)) => Ok((Node(e), s2))
    else Ok((Leaf(line), s1))
  }

  /**
   * The entries that survive the file: no line break in the tag, the directive or
   * any leaf, and no leaf that reads as the marker.
   */
  predicate Writable(e: Entry)
    decreases e
  {
    && '\n' !in e.tag && '\n' !in DirectiveText(e.directive)
    && forall i :: 0 <= i < |e.children| ==> ItemWritable(e.children[i])
  }

  predicate ItemWritable(item: Item)
    decreases item
  {
    match item
    case Leaf(t) => '\n' !in t && t != EntryMarker
    case Node(e) => Writable(e)
  }

  /** What reading gives back for a written entry: directives become text, None as "None". */
  function ReadBack(e: Entry): (r: Entry)
    decreases e
    ensures r.tag == e.tag && r.directive == Some(DirectiveText(e.directive))
    ensures |r.children| == |e.children|
  {
    Entry(e.tag, Some(DirectiveText(e.directive)), ReadBackSeq(e.children))
  }

  function ReadBackSeq(items: seq<Item>): (r: seq<Item>)
    decreases items
    ensures |r| == |items|
  {
    if items == [] then [] else [ReadBackItem(items[0])] + ReadBackSeq(items[1..])
  }

  function ReadBackItem(item: Item): Item
    decreases item
  {
    match item
    case Leaf(t) => Leaf(t)
    case Node(e) => Node(ReadBack(e))
  }

  /** The three header lines, read back and handed to the children's parse. */
  lemma ParseHeader(tag: string, d: string, c: string, body: string)
    requires '\n' !in tag && '\n' !in d && '\n' !in c
    ensures ParseInt(c).None? ==> ParseEntry(Line(tag) + (Line(d) + (Line(c) + body))) == Err(BadCount(c))
    ensures ParseInt(c).Some? ==>
      ParseEntry(Line(tag) + (Line(d) + (Line(c) + body))) == Assemble(tag, d, ParseItems(body, ParseInt(c).value))
  {
    NextLineOfLine(tag, Line(d) + (Line(c) + body));
    NextLineOfLine(d, Line(c) + body);
    NextLineOfLine(c, body);
  }

  /** The rest of a children parse, after the children already read. */
  function Prepend(items: seq<Item>, r: Result<(seq<Item>, string), ReadError>): (p: Result<(seq<Item>, string), ReadError>)
    ensures r.Err? <==> p.Err?
    ensures r.Err? ==> p == r
    ensures r.Ok? ==> p == Ok((items + r.value.0, r.value.1))
  {
    match r
    case Ok((more, rest)) => Ok((items + more, rest))
    case Err(err) => Err(err)
  }

  /** One turn of the children's parse, stated on its own. */
  lemma ItemsStep(s: string, n: int)
    requires n > 0
    ensures ParseDatum(s).Err? ==> ParseItems(s, n) == Err(ParseDatum(s).error)
    ensures ParseDatum(s).Ok? ==>
      ParseItems(s, n) == Prepend([ParseDatum(s).value.0], ParseItems(ParseDatum(s).value.1, n - 1))
  {
  }

  lemma PrependPrepend(a: seq<Item>, b: seq<Item>, r: Result<(seq<Item>, string), ReadError>)
    ensures Prepend(a, Prepend(b, r)) == Prepend(a + b, r)
  {
    if r.Ok? {
      assert a + (b + r.value.0) == (a + b) + r.value.0;
    }
  }

  lemma PrependNothing(r: Result<(seq<Item>, string), ReadError>)
    ensures Prepend([], r) == r
  {
    if r.Ok? {
      assert [] + r.value.0 == r.value.0;
    }
  }

  /** A leaf line that is not the marker becomes a leaf child. */
  lemma LeafStep(t: string, body: string)
    requires '\n' !in t && t != EntryMarker
    ensures ParseDatum(Line(t) + body) == Ok((Leaf(t), body))
  {
    NextLineOfLine(t, body);
  }

  /** The marker line starts a nested entry. */
  lemma NodeStep(u: string)
    ensures ParseDatum(Line(EntryMarker) + u) ==
      match ParseEntry(u)
      case Err(err) => Err(err)
      case Ok((e, after)) => Ok((Node(e), after))
  {
    NextLineOfLine(EntryMarker, u);
  }

  lemma DigitsHaveNoNewline(s: string)
    requires AllDigits(s)
    ensures '\n' !in s
  {
  }

  /**
   * readEntry undoes writeEntry: the entry comes back with its tag, its directive as
   * text, and its children in order, and exactly the entry's lines are consumed.
   */
  lemma {:induction false} RoundTrip(e: Entry, rest: string)
    requires Writable(e)
    ensures ParseEntry(Serialize(e) + rest) == Ok((ReadBack(e), rest))
    decreases ItemsSize(e.children), 2
  {
    var d := DirectiveText(e.directive);
    var c := IntToString(|e.children|);
    var body := SerializeItems(e.children) + rest;
    DigitsHaveNoNewline(c);
    AppendAssoc(Header(e), SerializeItems(e.children), rest);
    AppendAssoc(Line(e.tag) + Line(d), Line(c), body);
    AppendAssoc(Line(e.tag), Line(d), Line(c) + body);
    ParseHeader(e.tag, d, c, body);
    ParseIntOfIntToString(|e.children|);
    ItemsRoundTrip(e.children, rest);
  }

  lemma {:induction false} ItemsRoundTrip(items: seq<Item>, rest: string)
    requires forall i :: 0 <= i < |items| ==> ItemWritable(items[i])
    ensures ParseItems(SerializeItems(items) + rest, |items|) == Ok((ReadBackSeq(items), rest))
    decreases ItemsSize(items), 1
  {
    if items != [] {
      var tail := items[1..];
      var tailText := SerializeItems(tail) + rest;
      SerializeItemsCons(items);
      ItemsSizeCons(items);
      AppendAssoc(ItemText(items[0]), SerializeItems(tail), rest);
      assert forall i :: 0 <= i < |tail| ==> ItemWritable(tail[i]) by {
        forall i | 0 <= i < |tail|
          ensures ItemWritable(tail[i])
        {
          assert tail[i] == items[i + 1];
        }
      }
      var text := SerializeItems(items) + rest;
      assert text == ItemText(items[0]) + tailText;
      ItemsRoundTrip(tail, rest);
      ItemRoundTrip(items[0], tailText);
      ItemsStep(text, |items|);
      assert ParseItems(text, |items|) == Prepend([ReadBackItem(items[0])], ParseItems(tailText, |tail|));
    } else {
      assert SerializeItems(items) + rest == rest;
    }
  }

  /** One written child is read back as one child, and the parse goes on after its lines. */
  lemma {:induction false} ItemRoundTrip(item: Item, after: string)
    requires ItemWritable(item)
    ensures ParseDatum(ItemText(item) + after) == Ok((ReadBackItem(item), after))
    decreases ItemSize(item), 0
  {
    match item
    case Leaf(t) =>
      LeafStep(t, after);
    case Node(c) =>
      AppendAssoc(Line(EntryMarker), Serialize(c), after);
      RoundTrip(c, after);
      NodeStep(Serialize(c) + after);
  }

  /** n empty leaves: what an exhausted file yields for n expected children. */
  function Blanks(n: nat): (r: seq<Item>)
    ensures |r| == n && forall i :: 0 <= i < n ==> r[i] == Leaf("")
  {
    seq(n, i => Leaf(""))
  }

  /** Truncation is silent: once the text runs out, every expected child reads as an empty leaf. */
  lemma {:induction false} ExhaustedPads(n: nat)
    ensures ParseItems("", n) == Ok((Blanks(n), ""))
  {
    if n > 0 {
      ExhaustedPads(n - 1);
      assert Blanks(n) == [Leaf("")] + Blanks(n - 1);
    }
  }

  /** A file cut off after the count line reads as an entry with that many empty leaves. */
  lemma TruncatedChildren(tag: string, d: string, n: nat)
    requires '\n' !in tag && '\n' !in d
    ensures ParseEntry(Line(tag) + Line(d) + Line(NatToString(n))) == Ok((Entry(tag, Some(d), Blanks(n)), ""))
  {
    var m := NatToString(n);
    DigitsHaveNoNewline(m);
    assert Line(tag) + Line(d) + Line(m) == Line(tag) + (Line(d) + (Line(m) + ""));
    ParseHeader(tag, d, m, "");
    ParseNonNegative(n);
    ExhaustedPads(n);
  }

  /** A count line that int() rejects fails, naming that line. */
  lemma BadCountLine(tag: string, d: string, c: string, body: string)
    requires '\n' !in tag && '\n' !in d && '\n' !in c && ParseInt(c).None?
    ensures ParseEntry(Line(tag) + (Line(d) + (Line(c) + body))) == Err(BadCount(c))
  {
    ParseHeader(tag, d, c, body);
  }

  /** A file that ends before the count line reads the count as "", which int() rejects. */
  lemma MissingCountLine(tag: string, d: string)
    requires '\n' !in tag && '\n' !in d
    ensures ParseEntry(Line(tag) + Line(d)) == Err(BadCount(""))
  {
    NextLineOfLine(tag, Line(d));
    assert Line(d) == Line(d) + "";
    NextLineOfLine(d, "");
    ParseIntEmpty();
  }

  /**
   * A leaf whose text is the marker is read back as the start of a nested entry:
   * an entry holding the one string "ENTRY" does not survive the file.
   */
  lemma MarkerLeafMisread(e: Entry)
    requires '\n' !in e.tag && '\n' !in DirectiveText(e.directive)
    requires e.children == [Leaf(EntryMarker)]
    ensures ParseEntry(Serialize(e)) == Err(BadCount(""))
  {
    var c := IntToString(1);
    DigitsHaveNoNewline(c);
    ParseIntOfIntToString(1);
    var body := Line(EntryMarker);
    assert SerializeItems(e.children) == body by {
      SerializeItemsCons(e.children);
      assert e.children[1..] == [];
    }
    var d := DirectiveText(e.directive);
    assert Serialize(e) == Header(e) + body;
    AppendAssoc(Line(e.tag) + Line(d), Line(c), body);
    AppendAssoc(Line(e.tag), Line(d), Line(c) + body);
    ParseHeader(e.tag, d, c, body);
    MarkerAtEnd();
  }

  /** A marker line with nothing after it starts an entry whose count line is missing. */
  lemma MarkerAtEnd()
    ensures ParseItems(Line(EntryMarker), 1) == Err(BadCount(""))
  {
    assert Line(EntryMarker) == Line(EntryMarker) + "";
    NodeStep("");
    ParseIntEmpty();
    assert ParseEntry("") == Err(BadCount(""));
    ItemsStep(Line(EntryMarker), 1);
  }

  /** An open save file: everything written so far, and how far reading has got. */
  class LineFile {
    var text: string
    var pos: nat

    ghost predicate Valid()
      reads this
    {
      pos <= |text|
    }

    /** The text not read yet. */
    function Unread(): string
      reads this
      requires Valid()
    {
      text[pos..]
    }

    /** A file opened with the given contents, positioned at its start. */
    constructor (contents: string)
      ensures Valid() && text == contents && pos == 0
    {
      text := contents;
      pos := 0;
    }

    /** The file's readline(): the next line including its line break, or the rest of the text. */
    method Readline() returns (raw: string)
      requires Valid()
      modifies this
      ensures Valid() && text == old(text)
      ensures var (line, rest) := NextLine(old(Unread()));
        Unread() == rest && (raw == line || raw == line + "\n")
    ensures raw + Unread() == old(Unread())
    {
      ghost var s := Unread();
      var end := pos;
      while end < |text| && text[end] != '\n'
        invariant pos <= end <= |text|
        invariant forall k :: pos <= k < end ==> text[k] != '\n'
      {
        end := end + 1;
      }
      NextLineAt(s, end - pos);
      if end < |text| {
        end := end + 1;
      }
      raw := text[pos..end];
      pos := end;
    }
  }

  /** Where NextLine stops: at the first line break, or at the end of the text. */
  lemma {:induction false} NextLineAt(s: string, k: nat)
    requires k <= |s| && forall j :: 0 <= j < k ==> s[j] != '\n'
    requires k < |s| ==> s[k] == '\n'
    ensures k < |s| ==> NextLine(s) == (s[..k], s[k + 1..])
    ensures k == |s| ==> NextLine(s) == (s, "")
  {
    if k > 0 {
      NextLineAt(s[1..], k - 1);
      assert [s[0]] + s[1..][..k - 1] == s[..k];
      assert [s[0]] + s[1..] == s;
    }
  }

  /** writeLine: appends the line, adding a line break unless it already ends in one. */
  method WriteLine(line: string, f: LineFile)
    modifies f
    ensures f.text == old(f.text) + Line(line) && f.pos == old(f.pos)
  {
    var t := line;
    if !(|t| > 0 && t[|t| - 1] == '\n') {
      t := t + "\n";
    }
    f.text := f.text + t;
  }

  /** readLine: the next line without its line break, "" once the file is exhausted. */
  method ReadLine(f: LineFile) returns (line: string)
    requires f.Valid()
    modifies f
    ensures f.Valid() && f.text == old(f.text)
    ensures (line, f.Unread()) == NextLine(old(f.Unread()))
  {
    line := f.Readline();
    if |line| > 0 && line[|line| - 1] == '\n' {
      line := line[..|line| - 1];
    }
  }

  /** writeEntry: the header lines, then every child, nested entries after the marker. */
  method WriteEntry(e: Entry, f: LineFile)
    modifies f
    decreases ItemsSize(e.children), 1
    ensures f.text == old(f.text) + Serialize(e) && f.pos == old(f.pos)
  {
    WriteLine(e.tag, f);
    WriteLine(DirectiveText(e.directive), f);
    WriteLine(IntToString(|e.children|), f);
    ghost var header := f.text;
    assert header == old(f.text) + Header(e);
    var k := 0;
    assert e.children[..0] == [];
    while k < |e.children|
      invariant 0 <= k <= |e.children| && f.pos == old(f.pos)
      invariant f.text == header + SerializeItems(e.children[..k])
    {
      SerializeItemsSnoc(e.children, k);
      ItemsSizeSplit(e.children, k);
      WriteDatum(e.children[k], f);
      AppendAssoc(header, SerializeItems(e.children[..k]), ItemText(e.children[k]));
      k := k + 1;
    }
    assert e.children[..k] == e.children;
    AppendAssoc(old(f.text), Header(e), SerializeItems(e.children));
  }

  lemma AppendAssoc(a: string, b: string, c: string)
    ensures (a + b) + c == a + (b + c)
  {
  }

  /** One turn of writeEntry's loop: a nested entry after the marker line, or a leaf as its line. */
  method WriteDatum(datum: Item, f: LineFile)
    modifies f
    decreases ItemSize(datum), 0
    ensures f.text == old(f.text) + ItemText(datum) && f.pos == old(f.pos)
  {
    match datum {
      case Node(inner) =>
        WriteLine(EntryMarker, f);
        WriteEntry(inner, f);
      case Leaf(t) =>
        WriteLine(t, f);
    }
  }

  lemma SerializeItemsSnoc(items: seq<Item>, k: nat)
    requires k < |items|
    ensures SerializeItems(items[..k + 1]) == SerializeItems(items[..k]) + ItemText(items[k])
  {
    assert items[..k + 1][..k] == items[..k];
  }


  /**
   * readEntry: the header lines, int() of the count line, then that many children,
   * reading a nested entry wherever the marker line appears.
   */
  method ReadEntry(f: LineFile) returns (r: Result<Entry, ReadError>)
    requires f.Valid()
    modifies f
    decreases |f.text| - f.pos, 2
    ensures f.Valid() && f.text == old(f.text)
    ensures match ParseEntry(old(f.Unread()))
      case Ok((e, rest)) => r == Ok(e) && f.Unread() == rest
      case Err(err) => r == Err(err)
  {
    ghost var s := f.Unread();
    var tag := ReadLine(f);
    ghost var s1 := f.Unread();
    var loadFn := ReadLine(f);
    ghost var s2 := f.Unread();
    var countLine := ReadLine(f);
    ghost var start := f.Unread();
    var numItems := ParseInt(countLine);
    if numItems.None? {
      ParseEntryHeader(s, tag, s1, loadFn, s2, countLine, start);
      return Err(BadCount(countLine));
    }
    var items := ReadItems(f, numItems.value);
    ParseEntryHeader(s, tag, s1, loadFn, s2, countLine, start);
    if items.Err? {
      return Err(items.error);
    }
    r := Ok(Entry(tag, Some(loadFn), items.value));
  }

  /** readEntry's loop: numItems children, each a line or a nested entry. */
  method ReadItems(f: LineFile, n: int) returns (r: Result<seq<Item>, ReadError>)
    requires f.Valid()
    modifies f
    decreases |f.text| - f.pos, 1
    ensures f.Valid() && f.text == old(f.text)
    ensures match ParseItems(old(f.Unread()), n)
      case Ok((items, rest)) => r == Ok(items) && f.Unread() == rest
      case Err(err) => r == Err(err)
  {
    ghost var start := f.Unread();
    var dataList: seq<Item> := [];
    var i := 0;
    PrependNothing(ParseItems(start, n));
    while i < n
      invariant f.Valid() && f.text == old(f.text)
      invariant 0 <= i && (n >= 0 ==> i <= n)
      invariant |f.Unread()| <= |start|
      invariant ParseItems(start, n) == Prepend(dataList, ParseItems(f.Unread(), n - i))
      decreases n - i
    {
      ItemsStep(f.Unread(), n - i);
      var input := ReadDatum(f);
      if input.Err? {
        return Err(input.error);
      }
      PrependPrepend(dataList, [input.value], ParseItems(f.Unread(), n - i - 1));
      dataList := dataList + [input.value];
      i := i + 1;
    }
    assert ParseItems(f.Unread(), n - i) == Ok(([], f.Unread()));
    assert dataList + [] == dataList;
    r := Ok(dataList);
  }

  /** One turn of readEntry's loop: a line, and the nested entry after it when it is the marker. */
  method ReadDatum(f: LineFile) returns (r: Result<Item, ReadError>)
    requires f.Valid()
    modifies f
    decreases |f.text| - f.pos, 0
    ensures f.Valid() && f.text == old(f.text)
    ensures match ParseDatum(old(f.Unread()))
      case Ok((item, rest)) => r == Ok(item) && f.Unread() == rest
      case Err(err) => r == Err(err)
  {
    var input := ReadLine(f);
    if input == EntryMarker {
      var sub := ReadEntry(f);
      if sub.Err? {
        return Err(sub.error);
      }
      return Ok(Node(sub.value));
    }
    return Ok(Leaf(input));
  }

  /** readEntry's three header reads, as ParseEntry sees them. */
  lemma ParseEntryHeader(s: string, tag: string, s1: string, d: string, s2: string, c: string, s3: string)
    requires NextLine(s) == (tag, s1) && NextLine(s1) == (d, s2) && NextLine(s2) == (c, s3)
    ensures ParseInt(c).None? ==> ParseEntry(s) == Err(BadCount(c))
    ensures ParseInt(c).Some? ==> ParseEntry(s) == Assemble(tag, d, ParseItems(s3, ParseInt(c).value))
  {
  }

}
