/** The label-file loader load_labels: each line of the file becomes one
    entry of a map from integer class id to display name. A line of the
    form "<digits><separators><name>" sets id int(<digits>) to <name>; any
    other line sets its own 0-based row number to its first token. Reading
    the file is left to the caller: the loader is given the lines that
    readlines() returns. */
module Labels {
  import opened Text

  /** The list that re.split(r'[:\s]+', s, maxsplit=1) returns: one or two strings. */
  datatype Split = One(token: string) | Two(token: string, rest: string)

  /** One entry written into the label map. */
  datatype Entry = Entry(key: nat, name: string)

  /** Index of the first separator at or after from, or |s| when there is none. */
  function FirstSeparator(s: string, from: nat): (i: nat)
    requires from <= |s|
    ensures from <= i <= |s|
    ensures forall k :: from <= k < i ==> !IsSeparator(s[k])
    ensures i < |s| ==> IsSeparator(s[i])
    decreases |s| - from
  {
    if from == |s| || IsSeparator(s[from]) then from else FirstSeparator(s, from + 1)
  }

  /** End of the run of separators that starts at from (the greedy '+'). */
  function SeparatorRunEnd(s: string, from: nat): (j: nat)
    requires from <= |s|
    ensures from <= j <= |s|
    ensures forall k :: from <= k < j ==> IsSeparator(s[k])
    ensures j < |s| ==> !IsSeparator(s[j])
    decreases |s| - from
  {
    if from == |s| || !IsSeparator(s[from]) then from else SeparatorRunEnd(s, from + 1)
  }

  /** re.split(r'[:\s]+', s, maxsplit=1): cut s at its first run of separators. */
  function SplitOnce(s: string): (r: Split)
    ensures r.One? ==> r.token == s && NoSeparator(s)
    ensures r.Two? ==>
      && |r.token| + |r.rest| < |s|
      && s[..|r.token|] == r.token
      && s[|s| - |r.rest|..] == r.rest
      && NoSeparator(r.token)
      && AllSeparators(s[|r.token|..|s| - |r.rest|])
      && (r.rest == [] || !IsSeparator(r.rest[0]))
  {
    var i := FirstSeparator(s, 0);
    if i == |s| then One(s)
    else
      var j := SeparatorRunEnd(s, i + 1);
      assert s[i..j] == s[|s[..i]|..|s| - |s[j..]|];
      Two(s[..i], s[j..])
  }

  /** A string without separators is not cut. */
  lemma SplitOnceWhole(s: string)
    requires NoSeparator(s)
    ensures SplitOnce(s) == One(s)
  {
  }

  /** Cutting undoes joining: token, a non-empty separator run, then a rest
      that does not start with a separator. */
  lemma SplitOnceJoin(token: string, sep: string, rest: string)
    requires NoSeparator(token) && |sep| > 0 && AllSeparators(sep)
    requires rest == [] || !IsSeparator(rest[0])
    ensures SplitOnce(token + sep + rest) == Two(token, rest)
  {
    var s := token + sep + rest;
    assert forall k :: 0 <= k < |token| ==> s[k] == token[k];
    assert forall k :: 0 <= k < |sep| ==> s[|token| + k] == sep[k];
    assert rest != [] ==> s[|token| + |sep|] == rest[0];
    assert IsSeparator(s[|token|]) by { assert s[|token|] == sep[0]; }
    var i := FirstSeparator(s, 0);
    assert i == |token|;
    var j := SeparatorRunEnd(s, i + 1);
    assert j == |token| + |sep|;
    assert s[..i] == token;
    assert s[j..] == rest;
  }

  /** The loop body of load_labels for one line at 0-based row `row`:
      strip, split once, and use the first token as id when it is all digits
      and a second token exists, else the row number. int(token) skips
      surrounding whitespace itself, so it equals the value of the stripped token. */
  function ParseLine(line: string, row: nat): Entry
  {
    var pair := SplitOnce(Strip(line));
    if pair.Two? && IsDigits(Strip(pair.token)) then
      Entry(DecimalValue(Strip(pair.token)), Strip(pair.rest))
    else
      Entry(row, Strip(pair.token))
  }

  /** ParseLine read off the split of the stripped line, indexed case. */
  lemma ParseTwoTokens(line: string, row: nat, token: string, rest: string)
    requires SplitOnce(Strip(line)) == Two(token, rest)
    requires IsDigits(token) && Trimmed(rest)
    ensures ParseLine(line, row) == Entry(DecimalValue(token), rest)
  {
    assert Trimmed(token) by { assert !IsSpace(token[0]) && !IsSpace(token[|token| - 1]); }
    StripTrimmed(token);
    StripTrimmed(rest);
  }

  /** ParseLine read off the split of the stripped line, row-number case. */
  lemma ParseFirstToken(line: string, row: nat, token: string)
    requires SplitOnce(Strip(line)).token == token
    requires SplitOnce(Strip(line)).One? || !IsDigits(token)
    ensures ParseLine(line, row) == Entry(row, token)
  {
    assert token == [] || (!IsSpace(token[0]) && !IsSpace(token[|token| - 1]));
    StripTrimmed(token);
  }

  /** Stripping a padded "<token><separators><rest>" and splitting it
      gives back token and rest. */
  lemma SplitPadded(pre: string, token: string, sep: string, rest: string, post: string)
    requires AllSpace(pre) && AllSpace(post)
    requires |token| > 0 && NoSeparator(token) && |sep| > 0 && AllSeparators(sep)
    requires |rest| > 0 && !IsSeparator(rest[0]) && !IsSpace(rest[|rest| - 1])
    ensures SplitOnce(Strip(pre + token + sep + rest + post)) == Two(token, rest)
  {
    var body := token + sep + rest;
    assert body[0] == token[0] && body[|body| - 1] == rest[|rest| - 1];
    assert pre + token + sep + rest + post == pre + body + post;
    StripPadded(pre, body, post);
    SplitOnceJoin(token, sep, rest);
  }

  /** An indexed line, "<digits><separators><name>" padded with whitespace,
      maps id int(<digits>) to <name>, whatever its row. */
  lemma ParseIndexed(pre: string, digits: string, sep: string, name: string, post: string, row: nat)
    requires AllSpace(pre) && AllSpace(post)
    requires IsDigits(digits) && |sep| > 0 && AllSeparators(sep)
    requires |name| > 0 && !IsSeparator(name[0]) && !IsSpace(name[|name| - 1])
    ensures ParseLine(pre + digits + sep + name + post, row) == Entry(DecimalValue(digits), name)
  {
    SplitPadded(pre, digits, sep, name, post);
    ParseTwoTokens(pre + digits + sep + name + post, row, digits, name);
  }

  /** A line whose first token is not all digits is stored under its row
      number, with only that first token as name: "traffic light" on row 9
      gives 9 -> "traffic". */
  lemma ParseNotIndexed(pre: string, word: string, sep: string, tail: string, post: string, row: nat)
    requires AllSpace(pre) && AllSpace(post)
    requires |word| > 0 && NoSeparator(word) && !IsDigits(word)
    requires |sep| > 0 && AllSeparators(sep)
    requires |tail| > 0 && !IsSeparator(tail[0]) && !IsSpace(tail[|tail| - 1])
    ensures ParseLine(pre + word + sep + tail + post, row) == Entry(row, word)
  {
    SplitPadded(pre, word, sep, tail, post);
    ParseFirstToken(pre + word + sep + tail + post, row, word);
  }

  /** A line holding a single token is stored under its row number, even
      when that token is all digits: a lone "5" on row 2 gives 2 -> "5". */
  lemma ParseSingleToken(pre: string, word: string, post: string, row: nat)
    requires AllSpace(pre) && AllSpace(post)
    requires |word| > 0 && NoSeparator(word)
    ensures ParseLine(pre + word + post, row) == Entry(row, word)
  {
    assert Trimmed(word);
    StripPadded(pre, word, post);
    SplitOnceWhole(word);
    ParseFirstToken(pre + word + post, row, word);
  }

  /** An empty or whitespace-only line is not skipped: it stores "" under its row. */
  lemma ParseBlank(line: string, row: nat)
    requires AllSpace(line)
    ensures ParseLine(line, row) == Entry(row, "")
  {
    SplitOnceWhole("");
  }

  /** The entries of all rows, in row order. */
  function Entries(lines: seq<string>): (es: seq<Entry>)
    ensures |es| == |lines|
    ensures forall i :: 0 <= i < |lines| ==> es[i] == ParseLine(lines[i], i)
  {
    seq(|lines|, i requires 0 <= i < |lines| => ParseLine(lines[i], i))
  }

  /** Dictionary assignment of the entries in order: a later entry
      overwrites an earlier one with the same id. */
  function Fill(es: seq<Entry>): (m: map<nat, string>)
    ensures |m| <= |es|
  {
    if es == [] then map[]
    else
      var e := es[|es| - 1];
      Fill(es[..|es| - 1])[e.key := e.name]
  }

  /** Filling one more entry of a sequence assigns that entry last. */
  lemma FillPrefixStep(es: seq<Entry>, row: nat)
    requires row < |es|
    ensures Fill(es[..row + 1]) == Fill(es[..row])[es[row].key := es[row].name]
  {
    assert es[..row + 1][..row] == es[..row];
  }

  /** The map load_labels returns for the given lines. */
  function LabelsOf(lines: seq<string>): map<nat, string>
  {
    Fill(Entries(lines))
  }

  /** load_labels: fill the dictionary one line at a time. */
  method LoadLabels(lines: seq<string>) returns (labels: map<nat, string>)
    ensures labels == LabelsOf(lines)
    ensures |labels| <= |lines|
  {
    ghost var es := Entries(lines);
    labels := map[];
    for row := 0 to |lines|
      invariant labels == Fill(es[..row])
    {
      var e := ParseLine(lines[row], row);
      FillPrefixStep(es, row);
      labels := labels[e.key := e.name];
    }
    assert es[..|lines|] == es;
  }

  /** An id is in the map exactly when some entry carries it. */
  lemma {:induction false} FillKeys(es: seq<Entry>, k: nat)
    ensures k in Fill(es) <==> exists i :: 0 <= i < |es| && es[i].key == k
  {
    if es != [] {
      var n := |es| - 1;
      var init := es[..n];
      FillKeys(init, k);
      if k in Fill(es) && k != es[n].key {
        var i :| 0 <= i < n && init[i].key == k;
        assert es[i].key == k;
      }
      if k !in Fill(es) {
        forall i | 0 <= i < |es|
          ensures es[i].key != k
        {
          if i < n {
            assert init[i].key != k;
          }
        }
      }
    }
  }

  /** The last entry that carries an id decides its name. */
  lemma {:induction false} FillLastWins(es: seq<Entry>, i: nat)
    requires i < |es|
    requires forall j :: i < j < |es| ==> es[j].key != es[i].key
    ensures es[i].key in Fill(es) && Fill(es)[es[i].key] == es[i].name
  {
    var n := |es| - 1;
    if i < n {
      var init := es[..n];
      assert init[i] == es[i];
      forall j | i < j < |init|
        ensures init[j].key != init[i].key
      {
        assert init[j] == es[j];
      }
      FillLastWins(init, i);
    }
  }

  /** The label map holds an id exactly when some row produces it, and its
      name is that of the last such row. */
  lemma LabelsOfLastWins(lines: seq<string>, k: nat)
    ensures k in LabelsOf(lines) <==> exists i :: 0 <= i < |lines| && ParseLine(lines[i], i).key == k
    ensures k in LabelsOf(lines) ==>
      exists i :: 0 <= i < |lines| && ParseLine(lines[i], i) == Entry(k, LabelsOf(lines)[k])
        && (forall j :: i < j < |lines| ==> ParseLine(lines[j], j).key != k)
  {
    var es := Entries(lines);
    FillKeys(es, k);
    if k in LabelsOf(lines) {
      var i :| 0 <= i < |es| && es[i].key == k;
      while exists j :: i < j < |es| && es[j].key == k
        invariant 0 <= i < |es| && es[i].key == k
        decreases |es| - i
      {
        var j :| i < j < |es| && es[j].key == k;
        i := j;
      }
      FillLastWins(es, i);
    }
  }

  /** The line "<id> <name>\n" that an indexed label file holds. */
  lemma IndexedLine(id: nat, name: string, row: nat)
    requires |name| > 0 && !IsSeparator(name[0]) && !IsSpace(name[|name| - 1])
    ensures ParseLine(Decimal(id) + " " + name + "\n", row) == Entry(id, name)
  {
    assert AllSpace("\n");
    assert [] + Decimal(id) + " " + name + "\n" == Decimal(id) + " " + name + "\n";
    ParseIndexed([], Decimal(id), " ", name, "\n", row);
    DecimalRoundTrip(id);
  }

  /** A file in which every line is "<id> <name>" with distinct ids maps
      each id to its name and holds no other id. */
  lemma IndexedFile(lines: seq<string>, ids: seq<nat>, names: seq<string>)
    requires |ids| == |lines| && |names| == |lines|
    requires forall i, j :: 0 <= i < j < |ids| ==> ids[i] != ids[j]
    requires forall i :: 0 <= i < |lines| ==> lines[i] == Decimal(ids[i]) + " " + names[i] + "\n"
    requires forall i :: 0 <= i < |names| ==>
      |names[i]| > 0 && !IsSeparator(names[i][0]) && !IsSpace(names[i][|names[i]| - 1])
    ensures forall i :: 0 <= i < |ids| ==> ids[i] in LabelsOf(lines) && LabelsOf(lines)[ids[i]] == names[i]
    ensures forall k :: k in LabelsOf(lines) ==> k in ids
  {
    var es := Entries(lines);
    forall i | 0 <= i < |lines|
      ensures es[i] == Entry(ids[i], names[i])
    {
      IndexedLine(ids[i], names[i], i);
    }
    forall i | 0 <= i < |ids|
      ensures ids[i] in LabelsOf(lines) && LabelsOf(lines)[ids[i]] == names[i]
    {
      FillLastWins(es, i);
    }
    forall k | k in LabelsOf(lines)
      ensures k in ids
    {
      FillKeys(es, k);
      var i :| 0 <= i < |lines| && es[i].key == k;
      assert ids[i] == k;
    }
  }

  /** The line "<word>\n" that an unindexed label file holds. */
  lemma PlainLine(word: string, row: nat)
    requires |word| > 0 && NoSeparator(word)
    ensures ParseLine(word + "\n", row) == Entry(row, word)
  {
    assert AllSpace("\n");
    assert [] + word + "\n" == word + "\n";
    ParseSingleToken([], word, "\n", row);
  }

  /** A file of one word per line (digits or not) maps each 0-based row to its word. */
  lemma PlainFile(lines: seq<string>, names: seq<string>)
    requires |names| == |lines|
    requires forall i :: 0 <= i < |lines| ==> lines[i] == names[i] + "\n"
    requires forall i :: 0 <= i < |names| ==> |names[i]| > 0 && NoSeparator(names[i])
    ensures forall i: nat :: i < |lines| ==> i in LabelsOf(lines) && LabelsOf(lines)[i] == names[i]
    ensures forall k :: k in LabelsOf(lines) ==> k < |lines|
  {
    var es := Entries(lines);
    forall i | 0 <= i < |lines|
      ensures es[i] == Entry(i, names[i])
    {
      PlainLine(names[i], i);
    }
    forall i: nat | i < |lines|
      ensures i in LabelsOf(lines) && LabelsOf(lines)[i] == names[i]
    {
      FillLastWins(es, i);
    }
    forall k | k in LabelsOf(lines)
      ensures k < |lines|
    {
      FillKeys(es, k);
    }
  }

  lemma SplitPersonLine()
    ensures SplitOnce("0 person") == Two("0", "person")
  {
    SplitOnceJoin("0", " ", "person");
    assert "0" + " " + "person" == "0 person";
  }

  lemma SplitCarLine()
    ensures SplitOnce("1:car") == Two("1", "car")
  {
    SplitOnceJoin("1", ":", "car");
    assert "1" + ":" + "car" == "1:car";
  }

  lemma SplitTrafficLightLine()
    ensures SplitOnce("traffic light") == Two("traffic", "light")
  {
    SplitOnceJoin("traffic", " ", "light");
    assert "traffic" + " " + "light" == "traffic light";
  }

  /** "0 person" gives 0 -> "person", on any row. */
  lemma ExampleSpaceIndexed(row: nat)
    ensures ParseLine("0 person", row) == Entry(0, "person")
  {
    SplitPersonLine();
    StripTrimmed("0 person");
    StripTrimmed("0");
    StripTrimmed("person");
  }

  /** "1:car" gives 1 -> "car", on any row. */
  lemma ExampleColonIndexed(row: nat)
    ensures ParseLine("1:car", row) == Entry(1, "car")
  {
    SplitCarLine();
    StripTrimmed("1:car");
    StripTrimmed("1");
    StripTrimmed("car");
  }

  /** "traffic light" on row 9 gives 9 -> "traffic". */
  lemma ExampleFirstTokenOnly()
    ensures ParseLine("traffic light", 9) == Entry(9, "traffic")
  {
    SplitTrafficLightLine();
    StripTrimmed("traffic light");
    StripTrimmed("traffic");
    assert !IsDigit("traffic"[0]);
  }

  /** A lone "5" on row 2 gives 2 -> "5"; a blank line on row 4 gives 4 -> "". */
  lemma ExampleRowNumbered()
    ensures ParseLine("5", 2) == Entry(2, "5")
    ensures ParseLine("  \n", 4) == Entry(4, "")
  {
    ParseSingleToken([], "5", [], 2);
    assert [] + "5" + [] == "5";
    ParseBlank("  \n", 4);
  }

  lemma PersonIndexedLine()
    ensures ParseLine("0 person\n", 0) == Entry(0, "person")
  {
    assert Decimal(0) == "0";
    assert Decimal(0) + " " + "person" + "\n" == "0 person\n";
    IndexedLine(0, "person", 0);
  }

  lemma CarIndexedLine()
    ensures ParseLine("1 car\n", 1) == Entry(1, "car")
  {
    assert Decimal(1) == "1";
    assert Decimal(1) + " " + "car" + "\n" == "1 car\n";
    IndexedLine(1, "car", 1);
  }

  lemma PersonPlainLine()
    ensures ParseLine("person\n", 0) == Entry(0, "person")
  {
    PlainLine("person", 0);
    assert "person" + "\n" == "person\n";
  }

  lemma CarPlainLine()
    ensures ParseLine("car\n", 1) == Entry(1, "car")
  {
    PlainLine("car", 1);
    assert "car" + "\n" == "car\n";
  }

  /** Filling two entries with distinct ids. */
  lemma FillTwo(es: seq<Entry>)
    requires |es| == 2 && es[0].key != es[1].key
    ensures Fill(es) == map[es[0].key := es[0].name, es[1].key := es[1].name]
  {
    assert es[..1] == [es[0]];
    assert es[..1][..0] == [];
  }

  /** The indexed layout "0 person\n1 car\n" gives {0: "person", 1: "car"}. */
  lemma ExampleIndexedFile()
    ensures LabelsOf(["0 person\n", "1 car\n"]) == map[0 := "person", 1 := "car"]
  {
    PersonIndexedLine();
    CarIndexedLine();
    var es := Entries(["0 person\n", "1 car\n"]);
    assert es[0] == Entry(0, "person");
    assert es[1] == Entry(1, "car");
    FillTwo(es);
  }

  /** The unindexed layout "person\ncar\n" gives {0: "person", 1: "car"} too. */
  lemma ExamplePlainFile()
    ensures LabelsOf(["person\n", "car\n"]) == map[0 := "person", 1 := "car"]
  {
    PersonPlainLine();
    CarPlainLine();
    var es := Entries(["person\n", "car\n"]);
    assert es[0] == Entry(0, "person");
    assert es[1] == Entry(1, "car");
    FillTwo(es);
  }
}
