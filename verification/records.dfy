/** The inventory file: one comma-separated record per item, each followed by
    a newline, in the form `id,name,label,price,quantity,discount`.

    The program's number conversions are not modelled concretely: reading an
    integer (`stoi`), reading a price (`stod`) and printing a price through the
    output stream are parameters `toInt`, `toReal` and `showReal`. A `None`
    from a reader stands for the exception the program catches. */
module Records {
  import opened Wrappers
  import opened Text
  import opened Catalog

  /** Text that can sit in one field of one record. */
  predicate Plain(s: string) {
    |s| > 0 && ',' !in s && '\n' !in s
  }

  predicate InInt32(n: int) {
    -0x8000_0000 <= n <= 0x7fff_ffff
  }

  /** The integer reader accepts what the stream writes for any value of a
      32-bit `int` and returns that value. */
  ghost predicate InvertsDecimal(toInt: string -> Option<int>) {
    forall n :: InInt32(n) ==> toInt(IntToString(n)) == Some(n)
  }

  /** Printed prices are plain field text, they read back, and printing the
      value read back gives the same text again (fixed-precision printing is
      a fixpoint after one round). */
  ghost predicate PriceCodec(showReal: real -> string, toReal: string -> Option<real>) {
    forall x :: Plain(showReal(x)) && toReal(showReal(x)).Some?
      && showReal(toReal(showReal(x)).value) == showReal(x)
  }

  /** What `getline(stream, field, ',')` leaves in the k-th field variable: the
      k-th comma-separated piece, or nothing once the line is used up. */
  function Field(fields: seq<string>, k: nat): string {
    if k < |fields| then fields[k] else ""
  }

  /** True when one of the five leading fields is empty. */
  predicate MissingField(fields: seq<string>) {
    exists k :: 0 <= k < 5 && Field(fields, k) == ""
  }

  /** One line of the file to at most one item. A line is dropped when it is
      blank, when one of id, name, category, price and quantity is empty, when
      a number does not read, or when the category label is unknown. The sixth
      (discount) field is never looked at. */
  function ParseLine(line: string, toInt: string -> Option<int>, toReal: string -> Option<real>)
    : (r: Option<Item>)
    ensures r.Some? <==>
      var f := Split(line, ',');
      && line != ""
      && !MissingField(f)
      && toInt(Field(f, 0)).Some? && toReal(Field(f, 3)).Some? && toInt(Field(f, 4)).Some?
      && ParseLabel(Field(f, 2)).Some?
    ensures r.Some? ==>
      var f := Split(line, ',');
      && r.value.name == Field(f, 1)
      && r.value.name != "" && ',' !in r.value.name
      && ('\n' !in line ==> '\n' !in r.value.name)
      && Label(r.value.category) == Field(f, 2)
      && toInt(Field(f, 0)) == Some(r.value.id)
      && toReal(Field(f, 3)) == Some(r.value.price)
      && toInt(Field(f, 4)) == Some(r.value.quantity)
  {
    if line == "" then None
    else
      var f := Split(line, ',');
      if Field(f, 0) == "" || Field(f, 1) == "" || Field(f, 2) == "" || Field(f, 3) == "" || Field(f, 4) == "" then
        None
      else
        assert !MissingField(f);
        assert '\n' !in line ==> '\n' !in Field(f, 1) by {
          if '\n' !in line {
            PieceWithinJoin(f, ',', 1, '\n');
          }
        }
        match (toInt(Field(f, 0)), toReal(Field(f, 3)), toInt(Field(f, 4)))
        case (Some(id), Some(price), Some(qty)) =>
          (match ParseLabel(Field(f, 2))
           case Some(c) => Some(Item(id, Field(f, 1), c, price, qty))
           case None => None)
        case _ => None
  }

  /** The six fields `saveItems` writes for one item. The discount is written
      as the category's rate; `operator<<` prints these whole-number doubles
      without a fractional part. */
  function RecordFields(it: Item, showReal: real -> string): seq<string> {
    [IntToString(it.id), it.name, Label(it.category), showReal(it.price),
     IntToString(it.quantity), IntToString(it.DiscountPercent())]
  }

  /** An item whose record can be written and read back: its name is
      non-empty and holds no comma or newline, and id and quantity are values
      of a 32-bit `int`. */
  predicate ValidRecord(it: Item) {
    Plain(it.name) && InInt32(it.id) && InInt32(it.quantity)
  }

  lemma IntToStringIsPlain(n: int)
    ensures Plain(IntToString(n))
  {
    var s := IntToString(n);
    assert forall i :: 0 <= i < |s| ==> s[i] != ',' && s[i] != '\n';
  }

  /** The written fields are plain, so the joined line holds no newline and
      splits back into them. */
  lemma RecordFieldsSplitBack(it: Item, showReal: real -> string)
    ensures Plain(it.name) && Plain(showReal(it.price)) ==>
      var f := RecordFields(it, showReal);
      && '\n' !in Join(f, ',')
      && Split(Join(f, ','), ',') == f
  {
    var f := RecordFields(it, showReal);
    if Plain(it.name) && Plain(showReal(it.price)) {
      IntToStringIsPlain(it.id);
      IntToStringIsPlain(it.quantity);
      IntToStringIsPlain(it.DiscountPercent());
      assert forall i :: 0 <= i < |f| ==> Plain(f[i]);
      SplitOfJoin(f, ',');
      JoinAvoids(f, ',', '\n');
    }
  }

  /** One record line. When the name and the printed price are plain field
      text, the line holds no newline and splits back into exactly the six
      fields that were written. */
  function RenderItem(it: Item, showReal: real -> string): (line: string)
    ensures Plain(it.name) && Plain(showReal(it.price)) ==>
      && '\n' !in line
      && Split(line, ',') == RecordFields(it, showReal)
  {
    RecordFieldsSplitBack(it, showReal);
    Join(RecordFields(it, showReal), ',')
  }

  /** The item as it reads back: everything kept, the price replaced by what
      the reader makes of its printed form. */
  function Reread(it: Item, showReal: real -> string, toReal: string -> Option<real>): Item
    requires toReal(showReal(it.price)).Some?
  {
    it.(price := toReal(showReal(it.price)).value)
  }

  /** A written record parses back to the item it was written from, with the
      category re-derived from the label and the price passed through the
      print/read pair. */
  lemma ParseRenderedItem(it: Item, showReal: real -> string, toInt: string -> Option<int>,
                          toReal: string -> Option<real>)
    requires ValidRecord(it)
    requires InvertsDecimal(toInt) && PriceCodec(showReal, toReal)
    ensures ParseLine(RenderItem(it, showReal), toInt, toReal) == Some(Reread(it, showReal, toReal))
  {
    var line := RenderItem(it, showReal);
    var f := RecordFields(it, showReal);
    assert Plain(showReal(it.price));
    assert Split(line, ',') == f;
    assert toInt(IntToString(it.id)) == Some(it.id);
    assert toInt(IntToString(it.quantity)) == Some(it.quantity);
    IntToStringIsPlain(it.id);
    ParseLabelOfLabel(it.category);
    assert line != "" by {
      assert Join(f, ',') == f[0] + [','] + Join(f[1..], ',');
    }
  }

  /** Every line of the file, in order, kept when it parses. */
  function LoadLines(lines: seq<string>, toInt: string -> Option<int>, toReal: string -> Option<real>)
    : (items: seq<Item>)
    ensures |items| <= |lines|
    ensures (forall k :: 0 <= k < |lines| ==> '\n' !in lines[k]) ==>
      forall i :: 0 <= i < |items| ==> Plain(items[i].name)
    decreases |lines|
  {
    if |lines| == 0 then []
    else LineItems(lines[0], toInt, toReal) + LoadLines(lines[1..], toInt, toReal)
  }

  /** What one line contributes to the store: its item, or nothing. */
  function LineItems(line: string, toInt: string -> Option<int>, toReal: string -> Option<real>)
    : (items: seq<Item>)
    ensures |items| <= 1
    ensures '\n' !in line ==> forall i :: 0 <= i < |items| ==> Plain(items[i].name)
  {
    match ParseLine(line, toInt, toReal)
    case Some(it) => [it]
    case None => []
  }

  /** `loadItems` on the file's whole text: its lines are the pieces between
      newlines (a final empty piece is a blank line and is skipped). */
  function LoadText(text: string, toInt: string -> Option<int>, toReal: string -> Option<real>)
    : (items: seq<Item>)
    ensures |items| <= |Split(text, '\n')|
    ensures forall i :: 0 <= i < |items| ==> Plain(items[i].name)
  {
    LoadLines(Split(text, '\n'), toInt, toReal)
  }

  /** The record lines of a store, in order. */
  function RenderAll(items: seq<Item>, showReal: real -> string): (lines: seq<string>)
    ensures |lines| == |items|
    ensures forall i :: 0 <= i < |items| ==> lines[i] == RenderItem(items[i], showReal)
  {
    seq(|items|, i requires 0 <= i < |items| => RenderItem(items[i], showReal))
  }

  /** `saveItems`: every item's record followed by a newline, in store order. */
  function SaveText(items: seq<Item>, showReal: real -> string): (text: string)
    ensures text == "" <==> |items| == 0
  {
    Unlines(RenderAll(items, showReal))
  }

  /** Splitting a saved file on newlines gives its record lines, then the
      empty piece after the last newline. */
  lemma SplitSaved(items: seq<Item>, showReal: real -> string)
    requires forall i :: 0 <= i < |items| ==> Plain(items[i].name) && Plain(showReal(items[i].price))
    ensures Split(SaveText(items, showReal), '\n') == RenderAll(items, showReal) + [""]
  {
    var lines := RenderAll(items, showReal);
    assert forall i :: 0 <= i < |lines| ==> '\n' !in lines[i];
    SplitUnlines(lines);
  }

  lemma RenderedLineItems(it: Item, showReal: real -> string,
                          toInt: string -> Option<int>, toReal: string -> Option<real>)
    requires ValidRecord(it)
    requires InvertsDecimal(toInt) && PriceCodec(showReal, toReal)
    ensures LineItems(RenderItem(it, showReal), toInt, toReal) == [Reread(it, showReal, toReal)]
  {
    ParseRenderedItem(it, showReal, toInt, toReal);
  }

  /** Loading the record lines of a store, followed by a blank line, gives
      back every item through the print/read pair. */
  lemma {:induction false} LoadRenderedLines(items: seq<Item>, showReal: real -> string,
                                             toInt: string -> Option<int>, toReal: string -> Option<real>)
    requires forall i :: 0 <= i < |items| ==> ValidRecord(items[i])
    requires InvertsDecimal(toInt) && PriceCodec(showReal, toReal)
    ensures var loaded := LoadLines(RenderAll(items, showReal) + [""], toInt, toReal);
      && |loaded| == |items|
      && forall i :: 0 <= i < |items| ==> loaded[i] == Reread(items[i], showReal, toReal)
    decreases |items|
  {
    var lines := RenderAll(items, showReal) + [""];
    if |items| == 0 {
      assert lines == [""];
      assert LineItems("", toInt, toReal) == [];
    } else {
      var rest := RenderAll(items[1..], showReal) + [""];
      assert lines == [RenderItem(items[0], showReal)] + rest;
      assert lines[1..] == rest;
      RenderedLineItems(items[0], showReal, toInt, toReal);
      LoadRenderedLines(items[1..], showReal, toInt, toReal);
    }
  }

  /** Saving then loading gives back the same items in the same order, each
      with its id, name, category and quantity unchanged and its price passed
      through the print/read pair. */
  lemma LoadSaved(items: seq<Item>, showReal: real -> string,
                  toInt: string -> Option<int>, toReal: string -> Option<real>)
    requires forall i :: 0 <= i < |items| ==> ValidRecord(items[i])
    requires InvertsDecimal(toInt) && PriceCodec(showReal, toReal)
    ensures var loaded := LoadText(SaveText(items, showReal), toInt, toReal);
      && |loaded| == |items|
      && forall i :: 0 <= i < |items| ==> loaded[i] == Reread(items[i], showReal, toReal)
  {
    assert forall i :: 0 <= i < |items| ==> Plain(showReal(items[i].price));
    SplitSaved(items, showReal);
    LoadRenderedLines(items, showReal, toInt, toReal);
  }

  /** Saving is stable under a load: writing out what was just read from a
      saved file reproduces that file exactly. */
  lemma SaveLoadSaveStable(items: seq<Item>, showReal: real -> string,
                           toInt: string -> Option<int>, toReal: string -> Option<real>)
    requires forall i :: 0 <= i < |items| ==> ValidRecord(items[i])
    requires InvertsDecimal(toInt) && PriceCodec(showReal, toReal)
    ensures var text := SaveText(items, showReal);
      SaveText(LoadText(text, toInt, toReal), showReal) == text
  {
    var loaded := LoadText(SaveText(items, showReal), toInt, toReal);
    LoadSaved(items, showReal, toInt, toReal);
    forall i | 0 <= i < |items|
      ensures RenderItem(loaded[i], showReal) == RenderItem(items[i], showReal)
    {
      assert showReal(loaded[i].price) == showReal(items[i].price);
      assert RecordFields(loaded[i], showReal) == RecordFields(items[i], showReal);
    }
    assert RenderAll(loaded, showReal) == RenderAll(items, showReal);
  }

  /** The discount written in the sixth field plays no part: two lines that
      agree on their first five fields load the same way. */
  lemma DiscountFieldIgnored(a: string, b: string, toInt: string -> Option<int>, toReal: string -> Option<real>)
    requires a != "" && b != ""
    requires forall k :: 0 <= k < 5 ==> Field(Split(a, ','), k) == Field(Split(b, ','), k)
    ensures ParseLine(a, toInt, toReal) == ParseLine(b, toInt, toReal)
  {
    var fa, fb := Split(a, ','), Split(b, ',');
    assert Field(fa, 0) == Field(fb, 0) && Field(fa, 1) == Field(fb, 1) && Field(fa, 2) == Field(fb, 2);
    assert Field(fa, 3) == Field(fb, 3) && Field(fa, 4) == Field(fb, 4);
  }

  /** The strict decimal reader meets the integer-reader assumption, so the
      round-trip lemmas above are not vacuous. */
  lemma ReadDecimalInvertsDecimal()
    ensures InvertsDecimal(ReadDecimal)
  {
    forall n | InInt32(n)
      ensures ReadDecimal(IntToString(n)) == Some(n)
    {
      ReadDecimalOfIntToString(n);
    }
  }

  lemma SplitSixFields(line: string, f: seq<string>)
    requires |f| == 6 && forall i :: 0 <= i < 6 ==> ',' !in f[i]
    requires line == f[0] + "," + f[1] + "," + f[2] + "," + f[3] + "," + f[4] + "," + f[5]
    ensures Split(line, ',') == f
  {
    assert Join(f[5..], ',') == f[5];
    assert Join(f[4..], ',') == f[4] + "," + f[5];
    assert Join(f[3..], ',') == f[3] + "," + f[4] + "," + f[5];
    assert Join(f[2..], ',') == f[2] + "," + f[3] + "," + f[4] + "," + f[5];
    assert Join(f[1..], ',') == f[1] + "," + f[2] + "," + f[3] + "," + f[4] + "," + f[5];
    assert Join(f, ',') == f[0] + "," + Join(f[1..], ',');
    assert Join(f, ',') == line;
    SplitOfJoin(f, ',');
  }

  lemma SixFieldsParse(line: string, f: seq<string>, toInt: string -> Option<int>, toReal: string -> Option<real>)
    requires |f| == 6 && Split(line, ',') == f
    requires forall k :: 0 <= k < 5 ==> f[k] != ""
    ensures ParseLine(line, toInt, toReal) ==
      match (toInt(f[0]), toReal(f[3]), toInt(f[4]), ParseLabel(f[2]))
      case (Some(id), Some(price), Some(qty), Some(c)) => Some(Item(id, f[1], c, price, qty))
      case _ => None
  {
    assert line != "";
    assert Field(f, 0) == f[0] && Field(f, 1) == f[1] && Field(f, 2) == f[2];
    assert Field(f, 3) == f[3] && Field(f, 4) == f[4];
  }

  lemma DairyLineFields(good: string)
    requires good == "1,Milk,Dairy,40,3,99"
    ensures Split(good, ',') == ["1", "Milk", "Dairy", "40", "3", "99"]
  {
    SplitSixFields(good, ["1", "Milk", "Dairy", "40", "3", "99"]);
  }

  /** The price field of the second example line is "abc". */
  lemma GheeLineFields(bad: string)
    requires bad == "2,Ghee,Dairy,abc,5,10"
    ensures Field(Split(bad, ','), 3) == "abc"
  {
    SplitSixFields(bad, ["2", "Ghee", "Dairy", "abc", "5", "10"]);
  }

  lemma WellFormedDairyLine(good: string, toInt: string -> Option<int>, toReal: string -> Option<real>)
    requires Split(good, ',') == ["1", "Milk", "Dairy", "40", "3", "99"]
    requires toInt("1") == Some(1) && toInt("3") == Some(3) && toReal("40") == Some(40.0)
    ensures LineItems(good, toInt, toReal) == [Item(1, "Milk", Dairy, 40.0, 3)]
  {
    var f := ["1", "Milk", "Dairy", "40", "3", "99"];
    assert ParseLabel(f[2]) == Some(Dairy);
    SixFieldsParse(good, f, toInt, toReal);
  }

  /** A line whose price field does not read yields nothing, whatever its
      other fields hold. */
  lemma UnreadablePriceLine(line: string, toInt: string -> Option<int>, toReal: string -> Option<real>)
    requires toReal(Field(Split(line, ','), 3)) == None
    ensures LineItems(line, toInt, toReal) == []
  {
  }

  /** A well-formed Dairy record next to a record whose price does not read:
      only the first becomes an item, and its discount comes from the
      category, not from the stored 99. */
  lemma MalformedLineSkipped(good: string, bad: string,
                             toInt: string -> Option<int>, toReal: string -> Option<real>)
    requires good == "1,Milk,Dairy,40,3,99" && bad == "2,Ghee,Dairy,abc,5,10"
    requires toInt("1") == Some(1) && toInt("3") == Some(3) && toReal("40") == Some(40.0)
    requires toReal("abc") == None
    ensures var loaded := LoadLines([good, bad], toInt, toReal);
      && loaded == [Item(1, "Milk", Dairy, 40.0, 3)]
      && loaded[0].DiscountPercent() == 10
  {
    DairyLineFields(good);
    GheeLineFields(bad);
    WellFormedDairyLine(good, toInt, toReal);
    UnreadablePriceLine(bad, toInt, toReal);
    var lines := [good, bad];
    assert lines[1..] == [bad];
    assert lines[1..][1..] == [];
  }

  /** A line with fewer than five fields never yields an item. */
  lemma ShortLineSkipped(line: string, toInt: string -> Option<int>, toReal: string -> Option<real>)
    requires |Split(line, ',')| < 5
    ensures ParseLine(line, toInt, toReal) == None
  {
    assert Field(Split(line, ','), 4) == "";
  }
}
