/** The report renderer, `generate_output`: a header line, then one comma-separated line per
    ranked tag. How Python prints a number is not modelled: the renderer takes the two
    number formatters (for floats and for ints) as parameters. */
module Report {
  import opened Results
  import opened Engagement

  /** The report's column names; the header line is them joined with commas. */
  const ColumnNames: seq<string> := ["Hashtag", "Engagement/min", "user_amount", "avg likes", "avg views", "avg comments"]

  const Header: string := Join(ColumnNames)

  /** The fields joined with commas, without escaping. */
  function Join(fields: seq<string>): string
    requires |fields| > 0
  {
    if |fields| == 1 then fields[0] else fields[0] + "," + Join(fields[1..])
  }

  /** The commas inside the fields. */
  function FieldCommas(fields: seq<string>): nat {
    if fields == [] then 0 else Commas(fields[0]) + FieldCommas(fields[1..])
  }

  /** The comma-separated fields of a line, as a CSV reader without quoting sees them. */
  function Split(line: string): (fields: seq<string>)
    ensures |fields| > 0
  {
    if line == [] then [""]
    else
      var rest := Split(line[1..]);
      if line[0] == ',' then [""] + rest else [[line[0]] + rest[0]] + rest[1..]
  }

  /** The report line of one tag: it starts with the tag and a comma. */
  function Row(tag: string, c: Calcs, showReal: real -> string, showInt: int -> string): (line: string)
    ensures |line| > |tag| && line[..|tag| + 1] == tag + ","
  {
    var fields := RowFields(tag, c, showReal, showInt);
    assert Join(fields) == tag + "," + Join(fields[1..]);
    Join(fields)
  }

  /** The fields of a row, in column order: tag, engagement per minute, post count, and the
      three averages. */
  function RowFields(tag: string, c: Calcs, showReal: real -> string, showInt: int -> string): seq<string> {
    [tag, showReal(c.engagementPerMin), showInt(c.userAmount),
     showReal(c.avgLikes), showInt(c.avgViews), showReal(c.avgComments)]
  }

  /** generate_output: the header, then the row of each ranked tag looked up in the table;
      a ranked tag missing from the table raises KeyError. */
  method GenerateOutput(rankedList: seq<string>, allEngageCalcs: map<string, Calcs>,
                        showReal: real -> string, showInt: int -> string)
    returns (r: Result<seq<string>>)
    ensures r.Ok? <==> forall i :: 0 <= i < |rankedList| ==> rankedList[i] in allEngageCalcs
    ensures r.Err? ==> exists i :: 0 <= i < |rankedList| && r.error == MissingKey(rankedList[i])
                          && rankedList[i] !in allEngageCalcs
                          && forall j :: 0 <= j < i ==> rankedList[j] in allEngageCalcs
    ensures r.Ok? ==> |r.value| == 1 + |rankedList| && r.value[0] == Header
    ensures r.Ok? ==> forall i :: 0 <= i < |rankedList| ==>
              r.value[i + 1] == Row(rankedList[i], allEngageCalcs[rankedList[i]], showReal, showInt)
  {
    var lines := [Header];
    for i := 0 to |rankedList|
      invariant |lines| == 1 + i && lines[0] == Header
      invariant forall j :: 0 <= j < i ==> rankedList[j] in allEngageCalcs
      invariant forall j :: 0 <= j < i ==>
                  lines[j + 1] == Row(rankedList[j], allEngageCalcs[rankedList[j]], showReal, showInt)
    {
      var tag := rankedList[i];
      if tag !in allEngageCalcs {
        return Err(MissingKey(tag));
      }
      var calcs := allEngageCalcs[tag];
      lines := lines + [Row(tag, calcs, showReal, showInt)];
    }
    return Ok(lines);
  }

  lemma {:induction false} SplitAfterField(field: string, rest: string)
    requires ',' !in field
    ensures Split(field + "," + rest) == [field] + Split(rest)
  {
    if field == [] {
      assert ("" + "," + rest)[1..] == rest;
    } else {
      assert (field + "," + rest)[1..] == field[1..] + "," + rest;
      SplitAfterField(field[1..], rest);
      assert [field[0]] + field[1..] == field;
    }
  }

  lemma {:induction false} SplitField(field: string)
    requires ',' !in field
    ensures Split(field) == [field]
  {
    if field != [] {
      SplitField(field[1..]);
      assert [field[0]] + field[1..] == field;
    }
  }

  /** Reading a joined line back gives its fields, when no field holds a comma. */
  lemma {:induction false} SplitJoin(fields: seq<string>)
    requires |fields| > 0
    requires forall i :: 0 <= i < |fields| ==> ',' !in fields[i]
    ensures Split(Join(fields)) == fields
  {
    if |fields| == 1 {
      SplitField(fields[0]);
    } else {
      SplitJoin(fields[1..]);
      SplitAfterField(fields[0], Join(fields[1..]));
    }
  }

  /** The header reads back as the six column names. */
  lemma HeaderFields()
    ensures Split(Header) == ColumnNames
    ensures |Split(Header)| == 6 && Split(Header)[0] == "Hashtag"
  {
    SplitJoin(ColumnNames);
  }

  /** A row reads back as its six fields when neither the tag nor a formatted number holds a
      comma; the first field is the tag. */
  lemma RowReadsBack(tag: string, c: Calcs, showReal: real -> string, showInt: int -> string)
    requires ',' !in tag
    requires ',' !in showReal(c.engagementPerMin) && ',' !in showReal(c.avgLikes) && ',' !in showReal(c.avgComments)
    requires ',' !in showInt(c.userAmount) && ',' !in showInt(c.avgViews)
    ensures Split(Row(tag, c, showReal, showInt)) == RowFields(tag, c, showReal, showInt)
    ensures |Split(Row(tag, c, showReal, showInt))| == 6
  {
    SplitJoin(RowFields(tag, c, showReal, showInt));
  }

  function Commas(s: string): nat {
    if s == [] then 0 else (if s[0] == ',' then 1 else 0) + Commas(s[1..])
  }

  lemma {:induction false} SplitCount(s: string)
    ensures |Split(s)| == 1 + Commas(s)
  {
    if s != [] {
      SplitCount(s[1..]);
    }
  }

  lemma {:induction false} CommasAppend(a: string, b: string)
    ensures Commas(a + b) == Commas(a) + Commas(b)
  {
    if a != [] {
      assert (a + b)[1..] == a[1..] + b;
      CommasAppend(a[1..], b);
    } else {
      assert a + b == b;
    }
  }

  /** A joined line holds the fields' own commas and one separator between each two fields. */
  lemma {:induction false} JoinCommas(fields: seq<string>)
    requires |fields| > 0
    ensures Commas(Join(fields)) == FieldCommas(fields) + |fields| - 1
  {
    if |fields| > 1 {
      var rest := Join(fields[1..]);
      JoinCommas(fields[1..]);
      assert Join(fields) == fields[0] + ("," + rest);
      CommasAppend(fields[0], "," + rest);
      assert ("," + rest)[1..] == rest;
      assert Commas("," + rest) == 1 + Commas(rest);
    }
  }

  lemma {:induction false} CommaCounted(s: string)
    requires ',' in s
    ensures Commas(s) >= 1
  {
    if s[0] != ',' {
      CommaCounted(s[1..]);
    }
  }

  /** A tag holding a comma is not escaped: the row then reads back as more than six fields. */
  lemma CommaInTagAddsFields(tag: string, c: Calcs, showReal: real -> string, showInt: int -> string)
    requires ',' in tag
    ensures |Split(Row(tag, c, showReal, showInt))| > 6
  {
    var fields := RowFields(tag, c, showReal, showInt);
    SplitCount(Row(tag, c, showReal, showInt));
    JoinCommas(fields);
    CommaCounted(tag);
  }
}
