/** Safe keys. */
module Keys {
  // Relative paths of plain characters that lead nowhere else; any other key refuses its document.

  import opened Results
  import opened Text
  import opened Values
  import opened Scalars
  import opened Blocks
  import opened Grammar
  import opened Documents
  import opened RoundTrip
  import opened Reloading
  import opened Spellings
  import opened Handwritten
  import opened Refusals

  /** Where the first slash is, or the length. */
  function SlashAt(s: string): (n: nat)
    ensures n <= |s| && (n < |s| ==> s[n] == '/') && forall i :: 0 <= i < n ==> s[i] != '/'
  {
    if s == "" || s[0] == '/' then 0 else 1 + SlashAt(s[1..])
  }

  /** Python's `split("/")`. */
  function Components(s: string): seq<string>
    decreases |s|
  {
    var n := SlashAt(s);
    if n == |s| then [s] else [s[..n]] + Components(s[n + 1..])
  }

  predicate NoEmptyStep(s: string) {
    && s != "" && s[0] != '/' && s[|s| - 1] != '/'
    && forall i :: 0 < i < |s| ==> !(s[i - 1] == '/' && s[i] == '/')
  }

  lemma EmptyStepBehind(s: string, n: nat)
    requires 0 < n < |s| && s[n] == '/' && forall i :: 0 <= i < n ==> s[i] != '/'
    ensures NoEmptyStep(s) <==> NoEmptyStep(s[n + 1..])
  {
    var rest := s[n + 1..];
    assert rest != "" ==> rest[|rest| - 1] == s[|s| - 1];
    if NoEmptyStep(s) {
      assert n + 1 < |s|;
      assert !(s[n + 1 - 1] == '/' && s[n + 1] == '/');
      forall i | 0 < i < |rest|
        ensures !(rest[i - 1] == '/' && rest[i] == '/')
      {
        assert !(s[n + 1 + i - 1] == '/' && s[n + 1 + i] == '/');
      }
    }
    if NoEmptyStep(rest) {
      forall i | 0 < i < |s|
        ensures !(s[i - 1] == '/' && s[i] == '/')
      {
        if i > n + 1 {
          assert !(rest[i - n - 2] == '/' && rest[i - n - 1] == '/');
        } else if i == n + 1 {
          assert s[i] == rest[0];
        }
      }
    }
  }

  lemma {:induction false} EmptySteps(s: string)
    ensures NoEmptyStep(s) <==> "" !in Components(s)
    decreases |s|
  {
    var n := SlashAt(s);
    if n < |s| && n > 0 {
      EmptyStepBehind(s, n);
      EmptySteps(s[n + 1..]);
    }
  }

  predicate LeadsUp(s: string) {
    exists i :: 0 <= i < |s| && ParentStepAt(s, i)
  }

  lemma ParentBehind(s: string, n: nat)
    requires n < |s| && s[n] == '/' && forall i :: 0 <= i < n ==> s[i] != '/'
    ensures LeadsUp(s) <==> s[..n] == ".." || LeadsUp(s[n + 1..])
  {
    var rest := s[n + 1..];
    if i :| 0 <= i < |s| && ParentStepAt(s, i) {
      if i > n {
        assert ParentStepAt(rest, i - n - 1);
      } else {
        assert i == 0 && n == 2;
        assert s[..n] == "..";
      }
    }
    if i :| 0 <= i < |rest| && ParentStepAt(rest, i) {
      assert ParentStepAt(s, n + 1 + i);
    }
    if s[..n] == ".." {
      assert s[0] == s[..n][0] && s[1] == s[..n][1];
      assert ParentStepAt(s, 0);
    }
  }

  lemma {:induction false} ParentSteps(s: string)
    ensures LeadsUp(s) <==> ".." in Components(s)
    decreases |s|
  {
    var n := SlashAt(s);
    if n < |s| {
      ParentBehind(s, n);
      ParentSteps(s[n + 1..]);
    } else {
      if i :| 0 <= i < |s| && ParentStepAt(s, i) {
        assert i == 0 && |s| == 2;
        assert s == "..";
      }
      if s == ".." {
        assert ParentStepAt(s, 0);
      }
    }
  }

  /** A key is safe exactly when it has only plain characters and no component of it is empty or leads up. */
  lemma SafeKeys(s: string)
    ensures SafeKey(s) <==>
            && (forall i :: 0 <= i < |s| ==> KeyChar(s[i]))
            && "" !in Components(s) && ".." !in Components(s)
  {
    EmptySteps(s);
    ParentSteps(s);
  }

  lemma UnsafeParses(line: Line, key: string, text: string, floats: FloatReader)
    requires line.indent == 0 && !SafeKey(key)
    requires !Dashed(line.text) && MappingParts(line.text) == Ok((key, text))
    ensures ParseLines([line], floats).Err?
  {
    assert Classify(line.text, floats).Err?;
    assert ParseEntries([line], 0, [], floats).Err?;
  }

  lemma UnsafeParts(key: string, text: string)
    requires Trim(key) && Mute(key) && !Dashed(key + ":") && Still(text)
    ensures var line := key + ":" + (" " + text);
            !Dashed(line) && MappingParts(line) == Ok((key, text))
  {
    var line := key + ":" + (" " + text);
    StripSpaceBefore(key);
    ColonAfterMute(key, " " + text);
    StripSpaceBefore(text);
    assert line[..|key|] == key && line[|key| + 1..] == " " + text;
    assert line[0] == (key + ":")[0] && line[1] == (key + ":")[1];
  }

  lemma UnsafeClean(key: string, text: string)
    requires Trim(key) && Mute(key) && OnOneLine(key) && !Marked(key + ":" + (" " + text)) && Still(text)
    ensures var line := key + ":" + (" " + text); Clean(line) && Trim(line)
  {
    MuteRun(key);
    BareSharpless(true, Plain, key);
    MarksClean();
    CleanMore(" ", text);
    CleanMore(key, ":");
    CleanMore(key + ":", " " + text);
  }

  /** A document whose only key is not safe is refused, whatever stands behind it. */
  lemma UnsafeKeyRefused(key: string, text: string, remark: string, floats: FloatReader)
    requires Trim(key) && Mute(key) && OnOneLine(key) && !Dashed(key + ":") && Still(text) && OnOneLine(remark)
    requires !SafeKey(key) && !Marked(key + ":" + (" " + text))
    ensures Loads(key + ":" + (" " + text) + Remarked(remark) + "\n", floats).Err?
  {
    var line := key + ":" + (" " + text);
    UnsafeClean(key, text);
    WholeLineLexes(line, remark);
    UnsafeParts(key, text);
    OnlyLine(line + Remarked(remark), Line(0, line));
    UnsafeParses(Line(0, line), key, text, floats);
  }
}
