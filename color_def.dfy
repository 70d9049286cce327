/** The `color.def` loader: each line `name = red, green, blue[, alpha]` defines a
    colour, and `name = other` makes `name` an alias of a colour defined on an earlier
    line. Everything from `#` on is a comment. The result is a table from names to
    records with the keys red, green, blue and alpha. */
module ColorDef {
  import opened PyText

  /** A colour record: a dict from the four component names to their values. */
  type Record = map<string, Value>

  /** The table the loader fills, from colour name to record. */
  type Table = map<string, Record>

  /** The record a component line builds. The components are the stripped strings
      of the line; the alpha default is the int 255, not a string. */
  function Rgba(red: string, green: string, blue: string, alpha: Value): (r: Record)
    ensures r.Keys == {"red", "green", "blue", "alpha"}
  {
    map["red" := PyStr(red), "green" := PyStr(green), "blue" := PyStr(blue), "alpha" := alpha]
  }

  /** Every record in the table has exactly the four component keys. */
  ghost predicate WellFormed(t: Table) {
    forall name :: name in t ==> t[name].Keys == {"red", "green", "blue", "alpha"}
  }

  /** A line with its comment removed and its trailing whitespace stripped. */
  function Content(raw: string): string {
    RStrip(Before(raw, '#'))
  }

  /** The stripped name to the left of the `=` of a line. */
  function LineName(raw: string): string {
    Strip(Split(Content(raw), '=')[0])
  }

  /** `[v.strip() for v in pieces]` */
  function StripEach(pieces: seq<string>): (r: seq<string>)
    ensures |r| == |pieces|
  {
    seq(|pieces|, k requires 0 <= k < |pieces| => Strip(pieces[k]))
  }

  /** The entry a non-blank line (comment and trailing whitespace removed) makes:
      a line whose `=` split does not give two parts raises ValueError; otherwise
      the stripped name and the stripped components decide the entry. */
  function LineEntry(t: Table, line: string): (r: Result<(string, Record), PyError>)
    ensures r.Ok? ==> r.value.0 == Strip(Split(line, '=')[0])
    ensures r.Ok? && WellFormed(t) ==> r.value.1.Keys == {"red", "green", "blue", "alpha"}
  {
    var parts := Split(line, '=');
    if |parts| != 2 then Err(ValueError)
    else EntryOf(t, Strip(parts[0]), StripEach(Split(parts[1], ',')))
  }

  /** The entry for `color` from its stripped components: one component aliases an
      entry of the table so far (KeyError if there is none); fewer than three
      otherwise raise IndexError; three or more build a record, the fourth being
      alpha when there are exactly four. */
  function EntryOf(t: Table, color: string, vals: seq<string>): (r: Result<(string, Record), PyError>)
    ensures r.Ok? ==> r.value.0 == color
    ensures r.Ok? && WellFormed(t) ==> r.value.1.Keys == {"red", "green", "blue", "alpha"}
  {
    if |vals| == 1 then
      if vals[0] in t then Ok((color, t[vals[0]])) else Err(KeyError)
    else if |vals| < 3 then Err(IndexError)
    else
      var alpha := if |vals| == 4 then PyStr(vals[3]) else PyInt(255);
      Ok((color, Rgba(vals[0], vals[1], vals[2], alpha)))
  }

  /** The table after an entry is set, or the entry's exception. */
  function TableAfter(t: Table, entry: Result<(string, Record), PyError>): Result<Table, PyError> {
    match entry
    case Err(e) => Err(e)
    case Ok((name, record)) => Ok(t[name := record])
  }

  /** The effect of one line on the table built so far: a blank line changes
      nothing, any other line sets its own entry or raises. */
  function ParseLine(t: Table, raw: string): (r: Result<Table, PyError>)
    ensures Content(raw) == "" ==> r == Ok(t)
  {
    var line := Content(raw);
    if line == "" then Ok(t) else TableAfter(t, LineEntry(t, line))
  }

  /** A non-blank line that succeeds sets the entry of the name on its left and
      leaves every other entry as it was. */
  lemma ParseLineOnlyItsEntry(t: Table, raw: string)
    ensures Content(raw) != "" && ParseLine(t, raw).Ok? ==>
              && LineName(raw) in ParseLine(t, raw).value
              && ParseLine(t, raw).value == t[LineName(raw) := ParseLine(t, raw).value[LineName(raw)]]
  {
    if Content(raw) != "" && ParseLine(t, raw).Ok? {
      var entry := LineEntry(t, Content(raw));
      assert ParseLine(t, raw).value == t[entry.value.0 := entry.value.1];
    }
  }

  /** A line keeps every record of the table at exactly the four component keys. */
  lemma ParseLineWellFormed(t: Table, raw: string)
    ensures WellFormed(t) && ParseLine(t, raw).Ok? ==> WellFormed(ParseLine(t, raw).value)
  {
    var line := Content(raw);
    if WellFormed(t) && ParseLine(t, raw).Ok? && line != "" {
      var entry := LineEntry(t, line);
      var t' := t[entry.value.0 := entry.value.1];
      assert ParseLine(t, raw).value == t';
      forall name | name in t'
        ensures t'[name].Keys == {"red", "green", "blue", "alpha"}
      {
        if name != entry.value.0 {
          assert t'[name] == t[name];
        }
      }
    }
  }

  /** The table after all the lines, starting from an empty one; the first failing
      line's exception ends the parse. */
  function ParseLines(lines: seq<string>): Result<Table, PyError> {
    if lines == [] then Ok(map[])
    else
      match ParseLines(lines[..|lines| - 1])
      case Err(e) => Err(e)
      case Ok(t) => ParseLine(t, lines[|lines| - 1])
  }

  /** `_update_color_def`, over the lines of the file: fills the table line by line,
      reading aliases back from the entries made so far; the first line that raises
      ends the load with that exception. */
  method UpdateColorDef(lines: seq<string>) returns (r: Result<Table, PyError>)
    ensures r == ParseLines(lines)
  {
    var predefinedColors: Table := map[];
    for i := 0 to |lines|
      invariant ParseLines(lines[..i]) == Ok(predefinedColors)
    {
      ParseLinesStep(lines, i);
      var line := RStrip(Before(lines[i], '#'));
      if line != "" {
        ghost var entry := LineEntry(predefinedColors, line);
        assert ParseLines(lines[..i + 1]) == TableAfter(predefinedColors, entry);
        var parts := Split(line, '=');
        if |parts| != 2 {
          ErrorSticks(lines, i + 1);
          return Err(ValueError);
        }
        var color := Strip(parts[0]);
        var vals := StripEach(Split(parts[1], ','));
        assert entry == EntryOf(predefinedColors, color, vals);
        if |vals| == 1 {
          if vals[0] !in predefinedColors {
            ErrorSticks(lines, i + 1);
            return Err(KeyError);
          }
          predefinedColors := predefinedColors[color := predefinedColors[vals[0]]];
        } else {
          var alpha := if |vals| == 4 then PyStr(vals[3]) else PyInt(255);
          if |vals| < 3 {
            ErrorSticks(lines, i + 1);
            return Err(IndexError);
          }
          predefinedColors := predefinedColors[color := Rgba(vals[0], vals[1], vals[2], alpha)];
        }
      }
    }
    assert lines[..|lines|] == lines;
    return Ok(predefinedColors);
  }

  /** One more line extends the parse of a prefix by that line. */
  lemma ParseLinesStep(lines: seq<string>, i: nat)
    requires i < |lines|
    ensures ParseLines(lines[..i]).Err? ==> ParseLines(lines[..i + 1]) == ParseLines(lines[..i])
    ensures ParseLines(lines[..i]).Ok? ==>
              ParseLines(lines[..i + 1]) == ParseLine(ParseLines(lines[..i]).value, lines[i])
  {
    assert lines[..i + 1][..i] == lines[..i];
  }

  /** Once a prefix of the lines fails, the whole parse fails the same way. */
  lemma {:induction false} ErrorSticks(lines: seq<string>, i: nat)
    requires i <= |lines| && ParseLines(lines[..i]).Err?
    ensures ParseLines(lines) == ParseLines(lines[..i])
    decreases |lines|
  {
    if i == |lines| {
      assert lines[..i] == lines;
    } else {
      var init := lines[..|lines| - 1];
      assert init[..i] == lines[..i];
      ErrorSticks(init, i);
    }
  }

  /** Every record of a successfully parsed table has exactly the keys red, green,
      blue and alpha. */
  lemma {:induction false} ParseLinesWellFormed(lines: seq<string>)
    ensures ParseLines(lines).Ok? ==> WellFormed(ParseLines(lines).value)
  {
    if lines != [] {
      var init := lines[..|lines| - 1];
      ParseLinesWellFormed(init);
      if ParseLines(init).Ok? && ParseLines(lines).Ok? {
        ParseLineWellFormed(ParseLines(init).value, lines[|lines| - 1]);
      }
    }
  }

  /** Text free of the characters the line syntax gives a meaning to: `#`, `=` and `,`. */
  predicate Plain(s: string) {
    '#' !in s && '=' !in s && ',' !in s
  }

  /** Text from the first `#` on is ignored. */
  lemma CommentIgnored(t: Table, a: string, b: string)
    requires '#' !in a
    ensures ParseLine(t, a + "#" + b) == ParseLine(t, a)
  {
    BeforeConcat(a, b, '#');
    BeforeAbsent(a, '#');
  }

  /** A non-blank line whose `=` split does not give exactly two parts raises
      ValueError. */
  lemma WrongEqualsCount(t: Table, raw: string)
    requires Content(raw) != "" && Occurrences(Content(raw), '=') != 1
    ensures ParseLine(t, raw) == Err(ValueError)
  {
    SplitJoin(Content(raw), '=');
  }

  lemma {:induction false} JoinAvoids(vs: seq<string>, sep: char, c: char)
    requires c != sep && forall k :: 0 <= k < |vs| ==> c !in vs[k]
    ensures c !in Join(vs, sep)
  {
    if |vs| > 1 {
      JoinAvoids(vs[1..], sep, c);
    }
  }

  /** `rstrip` of a joined line only strips its last piece. */
  lemma {:induction false} RStripJoin(vs: seq<string>, sep: char)
    requires |vs| > 0 && !IsSpace(sep)
    ensures RStrip(Join(vs, sep)) == Join(vs[..|vs| - 1] + [RStrip(vs[|vs| - 1])], sep)
  {
    var last := RStrip(vs[|vs| - 1]);
    var ws := vs[..|vs| - 1] + [last];
    if |vs| == 1 {
      assert ws == [last];
    } else {
      var rest := vs[1..];
      var restWs := rest[..|rest| - 1] + [last];
      RStripJoin(rest, sep);
      RStripConcat(vs[0] + [sep], Join(rest, sep));
      assert ws[0] == vs[0] && ws[1..] == restWs;
      calc {
        RStrip(Join(vs, sep));
        RStrip((vs[0] + [sep]) + Join(rest, sep));
        (vs[0] + [sep]) + RStrip(Join(rest, sep));
        (vs[0] + [sep]) + Join(restWs, sep);
        Join(ws, sep);
      }
    }
  }

  /** A comment-free line whose name part ends in `=` loses only the trailing
      whitespace of its last part. */
  lemma LineContent(n: string, joined: string)
    requires Plain(n) && '#' !in joined
    ensures Content(n + "=" + joined) == n + "=" + RStrip(joined)
  {
    var raw := n + "=" + joined;
    assert '#' !in raw;
    BeforeAbsent(raw, '#');
    RStripConcat(n + "=", joined);
  }

  /** The stripped pieces of a `,`-joined list whose trailing whitespace is gone are
      the stripped pieces of the list. */
  lemma ComponentsOf(vs: seq<string>)
    requires |vs| > 0 && forall k :: 0 <= k < |vs| ==> ',' !in vs[k]
    ensures StripEach(Split(RStrip(Join(vs, ',')), ',')) == StripEach(vs)
  {
    var ws := vs[..|vs| - 1] + [RStrip(vs[|vs| - 1])];
    RStripJoin(vs, ',');
    LastStrippedAvoids(vs, ws, ',');
    JoinSplit(ws, ',');
    LastStrippedStrips(vs, ws);
  }

  /** Stripping the trailing whitespace of the last piece keeps a character out of
      every piece. */
  lemma LastStrippedAvoids(vs: seq<string>, ws: seq<string>, c: char)
    requires |vs| > 0 && forall k :: 0 <= k < |vs| ==> c !in vs[k]
    requires ws == vs[..|vs| - 1] + [RStrip(vs[|vs| - 1])]
    ensures forall k :: 0 <= k < |ws| ==> c !in ws[k]
  {
    var last := |vs| - 1;
    var rs := RStrip(vs[last]);
    assert c !in vs[last];
    assert c !in rs by {
      assert rs == vs[last][..|rs|];
    }
    assert forall k :: 0 <= k < last ==> ws[k] == vs[k];
  }

  /** Stripping the trailing whitespace of the last piece first does not change
      the stripped pieces. */
  lemma LastStrippedStrips(vs: seq<string>, ws: seq<string>)
    requires |vs| > 0 && ws == vs[..|vs| - 1] + [RStrip(vs[|vs| - 1])]
    ensures StripEach(ws) == StripEach(vs)
  {
    var last := |vs| - 1;
    StripAfterRStrip(vs[last]);
    forall k | 0 <= k < |vs|
      ensures StripEach(ws)[k] == StripEach(vs)[k]
    {
      if k < last {
        assert ws[k] == vs[k];
      } else {
        assert ws[k] == RStrip(vs[last]);
      }
    }
  }

  /** A line `n = v0, v1, ...` whose parts hold no `#`, `=` or `,` splits on `=`
      into the name and the component list, and the stripped components are those
      of `vs`. */
  lemma LinePieces(n: string, vs: seq<string>)
    requires |vs| > 0 && Plain(n) && forall k :: 0 <= k < |vs| ==> Plain(vs[k])
    ensures Content(n + "=" + Join(vs, ',')) != ""
    ensures Split(Content(n + "=" + Join(vs, ',')), '=') == [n, RStrip(Join(vs, ','))]
    ensures StripEach(Split(RStrip(Join(vs, ',')), ',')) == StripEach(vs)
  {
    var joined := Join(vs, ',');
    JoinAvoids(vs, ',', '#');
    JoinAvoids(vs, ',', '=');
    LineContent(n, joined);
    NameSplit(n, RStrip(joined));
    assert forall k :: 0 <= k < |vs| ==> ',' !in vs[k];
    ComponentsOf(vs);
  }

  /** A line with exactly one `=` splits into the text on either side of it. */
  lemma NameSplit(n: string, tail: string)
    requires '=' !in n && '=' !in tail
    ensures Split(n + "=" + tail, '=') == [n, tail]
  {
    SplitAtFirst(n, tail, '=');
    SplitNoSeparator(tail, '=');
    assert n + "=" + tail == n + ['='] + tail;
  }

  /** How a line `n = v0, v1, ...` whose parts hold no `#`, `=` or `,` is read:
      one component is an alias of an entry already in the table (KeyError when
      there is none); two components raise IndexError; three give alpha 255; four use
      the fourth as alpha; five or more ignore the extras and give alpha 255. Names
      and components are whitespace-stripped, and only the entry for the name
      changes. */
  lemma LineOfComponents(t: Table, n: string, vs: seq<string>)
    requires |vs| > 0 && Plain(n) && forall k :: 0 <= k < |vs| ==> Plain(vs[k])
    ensures |vs| == 1 && Strip(vs[0]) in t ==>
              ParseLine(t, n + "=" + Join(vs, ',')) == Ok(t[Strip(n) := t[Strip(vs[0])]])
    ensures |vs| == 1 && Strip(vs[0]) !in t ==>
              ParseLine(t, n + "=" + Join(vs, ',')) == Err(KeyError)
    ensures |vs| == 2 ==> ParseLine(t, n + "=" + Join(vs, ',')) == Err(IndexError)
    ensures |vs| == 3 ==>
              ParseLine(t, n + "=" + Join(vs, ','))
              == Ok(t[Strip(n) := Rgba(Strip(vs[0]), Strip(vs[1]), Strip(vs[2]), PyInt(255))])
    ensures |vs| == 4 ==>
              ParseLine(t, n + "=" + Join(vs, ','))
              == Ok(t[Strip(n) := Rgba(Strip(vs[0]), Strip(vs[1]), Strip(vs[2]), PyStr(Strip(vs[3])))])
    ensures |vs| >= 5 ==>
              ParseLine(t, n + "=" + Join(vs, ','))
              == Ok(t[Strip(n) := Rgba(Strip(vs[0]), Strip(vs[1]), Strip(vs[2]), PyInt(255))])
  {
    var raw := n + "=" + Join(vs, ',');
    LinePieces(n, vs);
    assert ParseLine(t, raw) == TableAfter(t, EntryOf(t, Strip(n), StripEach(vs)));
    EntryOfComponents(t, Strip(n), vs);
  }

  /** The entry the stripped components of `vs` make, case by case. */
  lemma EntryOfComponents(t: Table, color: string, vs: seq<string>)
    requires |vs| > 0
    ensures |vs| == 1 && Strip(vs[0]) in t ==> EntryOf(t, color, StripEach(vs)) == Ok((color, t[Strip(vs[0])]))
    ensures |vs| == 1 && Strip(vs[0]) !in t ==> EntryOf(t, color, StripEach(vs)) == Err(KeyError)
    ensures |vs| == 2 ==> EntryOf(t, color, StripEach(vs)) == Err(IndexError)
    ensures |vs| >= 3 ==>
              EntryOf(t, color, StripEach(vs))
              == Ok((color, Rgba(Strip(vs[0]), Strip(vs[1]), Strip(vs[2]),
                                 if |vs| == 4 then PyStr(Strip(vs[3])) else PyInt(255))))
  {
    var vals := StripEach(vs);
    assert vals[0] == Strip(vs[0]);
    if |vs| >= 3 {
      assert vals[1] == Strip(vs[1]) && vals[2] == Strip(vs[2]);
      if |vs| == 4 {
        assert vals[3] == Strip(vs[3]);
      }
    }
  }

  /** An alias line for a name the earlier lines did not define makes the whole parse
      fail with KeyError; for a defined one, the new name gets that record. */
  lemma AliasNeedsEarlierDefinition(lines: seq<string>, n: string, other: string)
    requires Plain(n) && Plain(other) && ParseLines(lines).Ok?
    ensures Strip(other) !in ParseLines(lines).value ==>
              ParseLines(lines + [n + "=" + other]) == Err(KeyError)
    ensures Strip(other) in ParseLines(lines).value ==>
              ParseLines(lines + [n + "=" + other])
              == Ok(ParseLines(lines).value[Strip(n) := ParseLines(lines).value[Strip(other)]])
  {
    var all := lines + [n + "=" + other];
    assert all[..|all| - 1] == lines;
    LineOfComponents(ParseLines(lines).value, n, [other]);
  }
}
