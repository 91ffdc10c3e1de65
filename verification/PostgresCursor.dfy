/** The scan cursor of the PostgreSQL connector: a JSON pair of names in URL-safe base64. */
module PostgresCursor {
  import opened Options
  import opened JsonStrings
  import opened CanonicalJson
  import opened JsonText
  import opened Ascii
  import B = Base64

  const MAX_NAME: nat := 63
  const MAX_CURSOR: nat := 2048

  datatype Decoded = Position(schema: Text, table: Text) | InvalidCursor

  function PairOf(schema: Text, table: Text): Json { Arr(Item(Str(schema), Item(Str(table), NoItems))) }

  lemma PairText(schema: Text, table: Text)
    ensures Print(PairOf(schema, table)) == "[" + (Literal(schema) + ("," + Literal(table))) + "]"
  {
    var last := Item(Str(table), NoItems);
    assert PrintItems(last) == Literal(table);
    assert PrintItems(Item(Str(schema), last)) == Literal(schema) + ("," + Literal(table));
  }

  lemma AsciiParts(a: string, b: string)
    requires IsAscii(a) && IsAscii(b)
    ensures IsAscii("[" + (a + ("," + b)) + "]") && |"[" + (a + ("," + b)) + "]"| == |a| + |b| + 3
  {}

  /** The payload is ASCII, and escapes make it at most twelve times as long as the names. */
  lemma PayloadText(schema: Text, table: Text)
    ensures IsAscii(Print(PairOf(schema, table)))
    ensures |Print(PairOf(schema, table))| <= 12 * (|schema| + |table|) + 7
  {
    EscapedText(schema);
    EscapedText(table);
    PairText(schema, table);
    assert IsAscii(Literal(schema)) && IsAscii(Literal(table));
    assert |Literal(schema)| == |EscapeAll(schema)| + 2 && |Literal(table)| == |EscapeAll(table)| + 2;
    AsciiParts(Literal(schema), Literal(table));
  }

  function EncodeCursor(schema: Text, table: Text): string {
    PayloadText(schema, table);
    B.Encode(ToBytes(Print(PairOf(schema, table))))
  }

  /** The value must be a list of exactly two strings of at most 63 characters. */
  function Checked(v: Option<Json>): (d: Decoded)
    ensures d.Position? ==> |d.schema| <= MAX_NAME && |d.table| <= MAX_NAME && v == Some(PairOf(d.schema, d.table))
    ensures d.InvalidCursor? ==> !exists s, t :: |s| <= MAX_NAME && |t| <= MAX_NAME && v == Some(PairOf(s, t))
  {
    match v
    case Some(Arr(Item(Str(schema), Item(Str(table), NoItems)))) =>
      if |schema| <= MAX_NAME && |table| <= MAX_NAME then Position(schema, table) else InvalidCursor
    case _ => InvalidCursor
  }

  function DecodeCursor(cursor: Option<string>): Decoded {
    match cursor
    case None => Position([], [])
    case Some(text) =>
      if text == "" || |text| > MAX_CURSOR then InvalidCursor else
        match B.Decode(text)
        case None => InvalidCursor
        case Some(bytes) =>
          match FromBytes(bytes)
          case None => InvalidCursor
          case Some(payload) => Checked(Loads(payload))
  }

  /** Without a cursor the scan begins; an empty one or one of more than 2048 characters is refused, and any other is judged by what it holds. */
  lemma DecodesExactlyWhen(text: string)
    ensures DecodeCursor(None) == Position([], [])
    ensures text == "" || |text| > 2048 ==> DecodeCursor(Some(text)) == InvalidCursor
    ensures text != "" && |text| <= 2048 ==> forall bytes, payload ::
      B.Decode(text) == Some(bytes) && FromBytes(bytes) == Some(payload) ==> DecodeCursor(Some(text)) == Checked(Loads(payload))
  {}

  /** No cursor for two names of at most 63 characters is too long to be read. */
  lemma CursorFits(schema: Text, table: Text)
    requires |schema| <= MAX_NAME && |table| <= MAX_NAME
    ensures 0 < |EncodeCursor(schema, table)| <= 2026 <= MAX_CURSOR
  {
    PayloadText(schema, table);
    B.EncodedLength(ToBytes(Print(PairOf(schema, table))));
    assert |Print(PairOf(schema, table))| >= 1;
  }

  /** A list of one text. */
  lemma OneText(t: Text)
    ensures var i := Item(Str(t), NoItems);
            NormalItems(i) == i && MergedItems(i) == i && JoinedItems(i) == Item(Str(Joined(t)), NoItems)
  {}

  lemma TwoTexts(s: Text, t: Text)
    ensures Normal(PairOf(s, t)) == PairOf(s, t) && Merged(PairOf(s, t)) == PairOf(s, t)
    ensures JoinedAll(PairOf(s, t)) == PairOf(Joined(s), Joined(t))
  {
    OneText(t);
    var i := Item(Str(s), Item(Str(t), NoItems));
    assert NormalItems(i) == i && MergedItems(i) == i && JoinedItems(i) == Item(Str(Joined(s)), Item(Str(Joined(t)), NoItems));
  }

  lemma ReadPair(schema: Text, table: Text)
    ensures Loads(Print(PairOf(schema, table))) == Some(PairOf(Joined(schema), Joined(table)))
  {
    TwoTexts(schema, table);
    TwoTexts(Joined(schema), Joined(table));
    LoadsCanonical(PairOf(schema, table));
  }

  /** Decoding an encoded cursor gives the names with surrogate pairs joined. */
  lemma DecodeEncoded(schema: Text, table: Text)
    requires |schema| <= MAX_NAME && |table| <= MAX_NAME
    ensures DecodeCursor(Some(EncodeCursor(schema, table))) == Position(Joined(schema), Joined(table))
  {
    var payload := Print(PairOf(schema, table));
    CursorFits(schema, table);
    PayloadText(schema, table);
    B.Base64RoundTrip(ToBytes(payload));
    BytesRoundTrip(payload);
    ReadPair(schema, table);
    JoinedIffUnpaired(schema);
    JoinedIffUnpaired(table);
  }

  /** A cursor reads back as the names it was made from exactly when neither spells out a surrogate pair. */
  lemma CursorRoundTrip(schema: Text, table: Text)
    requires |schema| <= MAX_NAME && |table| <= MAX_NAME
    ensures DecodeCursor(Some(EncodeCursor(schema, table))) == Position(schema, table) <==> Unpaired(schema) && Unpaired(table)
  {
    DecodeEncoded(schema, table);
    JoinedIffUnpaired(schema);
    JoinedIffUnpaired(table);
  }
}
