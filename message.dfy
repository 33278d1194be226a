/** The notification text that `send_request_to_telegram` builds for one
    request, and a reading of that text back into its four fields. */
module Message {
  import opened Requests

  const Header: string := "Новая заявка:"
  const NameLabel: string := "Имя: "
  const ContactLabel: string := "Контактные данные: "
  const TextLabel: string := "Текст заявки: "
  const DateLabel: string := "Дата и время: "

  /** The five-line notification for a row; no newline after the last line. */
  function Render(row: Row): string
  {
    Header + "\n" + NameLabel + row.name + "\n" + ContactLabel + row.contact + "\n"
      + TextLabel + row.text + "\n" + DateLabel + row.datetime
  }

  /** The message for a record, or the KeyError of its first absent display
      field. The result depends on the four display fields only. */
  function FormatMessage(r: Record): (res: Result<string, string>)
    ensures res.Err? <==> ReadRow(r).Err?
    ensures res.Err? ==> IsFirstMissing(r.fields, res.error)
    ensures res.Ok? ==> res.value == Header + "\n" + NameLabel + r.fields["name"] + "\n"
                                     + ContactLabel + r.fields["contact"] + "\n"
                                     + TextLabel + r.fields["text"] + "\n" + DateLabel + r.fields["datetime"]
    ensures res.Ok? ==> StartsWith(res.value, Header + "\n")
    ensures res.Ok? ==> EndsWith(res.value, DateLabel + r.fields["datetime"])
    ensures res.Ok? && NoLineBreaks(ReadRow(r).value) ==> ParseMessage(res.value) == Some(ReadRow(r).value)
  {
    match ReadRow(r)
    case Err(k) => Err(k)
    case Ok(row) =>
      RenderAffixes(row);
      if NoLineBreaks(row) then ParseRender(row); Ok(Render(row))
      else Ok(Render(row))
  }

  predicate StartsWith(s: string, p: string)
  {
    |p| <= |s| && s[..|p|] == p
  }

  predicate EndsWith(s: string, p: string)
  {
    |p| <= |s| && s[|s| - |p|..] == p
  }

  predicate NoLineBreaks(row: Row)
  {
    '\n' !in row.name && '\n' !in row.contact && '\n' !in row.text && '\n' !in row.datetime
  }

  /** Splits a text at every line break; a text with k line breaks has k + 1 lines. */
  function Lines(s: string): (ls: seq<string>)
    ensures |ls| >= 1
  {
    if s == [] then [""]
    else if s[0] == '\n' then [""] + Lines(s[1..])
    else
      var rest := Lines(s[1..]);
      [[s[0]] + rest[0]] + rest[1..]
  }

  /** Reads a notification back into its four fields, or None when the text
      does not have the five-line layout. */
  function ParseMessage(m: string): Option<Row>
  {
    var ls := Lines(m);
    if |ls| == 5 && ls[0] == Header && StartsWith(ls[1], NameLabel) && StartsWith(ls[2], ContactLabel)
       && StartsWith(ls[3], TextLabel) && StartsWith(ls[4], DateLabel)
    then Some(Row(ls[1][|NameLabel|..], ls[2][|ContactLabel|..], ls[3][|TextLabel|..], ls[4][|DateLabel|..]))
    else None
  }

  lemma {:induction false} LinesOfPlain(s: string)
    requires '\n' !in s
    ensures Lines(s) == [s]
  {
    if s != [] {
      LinesOfPlain(s[1..]);
      assert [s[0]] + s[1..] == s;
    }
  }

  /** Splitting at a line break splits the lines. */
  lemma {:induction false} LinesOfJoin(a: string, b: string)
    ensures Lines(a + "\n" + b) == Lines(a) + Lines(b)
  {
    if a == [] {
      assert a + "\n" + b == "\n" + b;
      assert ("\n" + b)[1..] == b;
    } else {
      var s := a + "\n" + b;
      assert s[0] == a[0];
      assert s[1..] == a[1..] + "\n" + b;
      LinesOfJoin(a[1..], b);
    }
  }

  /** Five lines free of line breaks, joined by line breaks, split back into
      the same five lines. */
  lemma JoinFiveLines(l0: string, l1: string, l2: string, l3: string, l4: string)
    requires '\n' !in l0 && '\n' !in l1 && '\n' !in l2 && '\n' !in l3 && '\n' !in l4
    ensures Lines(l0 + "\n" + l1 + "\n" + l2 + "\n" + l3 + "\n" + l4) == [l0, l1, l2, l3, l4]
  {
    LinesOfPlain(l0); LinesOfPlain(l1); LinesOfPlain(l2); LinesOfPlain(l3); LinesOfPlain(l4);
    var p1 := l0 + "\n" + l1;
    var p2 := p1 + "\n" + l2;
    var p3 := p2 + "\n" + l3;
    LinesOfJoin(l0, l1);
    LinesOfJoin(p1, l2);
    LinesOfJoin(p2, l3);
    LinesOfJoin(p3, l4);
  }

  lemma LabelsHaveNoLineBreaks()
    ensures '\n' !in Header && '\n' !in NameLabel && '\n' !in ContactLabel
    ensures '\n' !in TextLabel && '\n' !in DateLabel
  {
  }

  /** The rendered text is exactly the header line and the four labelled lines. */
  lemma RenderLines(row: Row)
    requires NoLineBreaks(row)
    ensures Lines(Render(row)) == [Header, NameLabel + row.name, ContactLabel + row.contact,
                                   TextLabel + row.text, DateLabel + row.datetime]
  {
    LabelsHaveNoLineBreaks();
    var l1, l2 := NameLabel + row.name, ContactLabel + row.contact;
    var l3, l4 := TextLabel + row.text, DateLabel + row.datetime;
    assert Render(row) == Header + "\n" + l1 + "\n" + l2 + "\n" + l3 + "\n" + l4;
    JoinFiveLines(Header, l1, l2, l3, l4);
  }

  lemma AffixesOfJoin(p: string, m: string, q: string)
    ensures StartsWith(p + m + q, p) && EndsWith(p + m + q, q)
  {
    assert (p + m + q)[..|p|] == p;
    assert (p + m + q)[|p + m + q| - |q|..] == q;
  }

  lemma StripLabel(tag: string, v: string)
    ensures StartsWith(tag + v, tag) && (tag + v)[|tag|..] == v
  {
    assert (tag + v)[..|tag|] == tag;
  }

  /** The rendered text begins with the header line and ends with the date
      line: there is no line break after the last field. */
  lemma RenderAffixes(row: Row)
    ensures StartsWith(Render(row), Header + "\n")
    ensures EndsWith(Render(row), DateLabel + row.datetime)
  {
    AffixesOfJoin(Header + "\n", NameLabel + row.name + "\n" + ContactLabel + row.contact + "\n"
                  + TextLabel + row.text + "\n", DateLabel + row.datetime);
  }

  /** Reading a rendered notification gives back the row it was made from. */
  lemma ParseRender(row: Row)
    requires NoLineBreaks(row)
    ensures ParseMessage(Render(row)) == Some(row)
  {
    RenderLines(row);
    var ls := Lines(Render(row));
    StripLabel(NameLabel, row.name);
    StripLabel(ContactLabel, row.contact);
    StripLabel(TextLabel, row.text);
    StripLabel(DateLabel, row.datetime);
    assert |ls| == 5 && ls[0] == Header;
    assert StartsWith(ls[1], NameLabel) && StartsWith(ls[2], ContactLabel);
    assert StartsWith(ls[3], TextLabel) && StartsWith(ls[4], DateLabel);
  }

  /** Two records that agree on the four display fields format alike: no
      other field of the record reaches the notification. */
  lemma FormatReadsOnlyRowKeys(r1: Record, r2: Record)
    requires forall k :: k in RowKeys ==> (k in r1.fields <==> k in r2.fields)
    requires forall k :: k in RowKeys && k in r1.fields ==> r1.fields[k] == r2.fields[k]
    ensures FormatMessage(r1) == FormatMessage(r2)
  {
    assert RowKeys == ["name", "contact", "text", "datetime"];
    assert "name" in RowKeys && "contact" in RowKeys && "text" in RowKeys && "datetime" in RowKeys;
  }
}
