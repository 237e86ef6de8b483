/** Configuration files in the program's own YAML. */
module YamlFiles {
  // What a printed document reads back as, and whether merging it over a parent shows the difference.

  import opened Results
  import opened Values
  import opened Text
  import opened Scalars
  import opened Blocks
  import opened Documents
  import opened Reloading
  import opened Composition
  import opened Chains
  import opened Loaded
  import opened ConfigTree

  function FieldsIn(text: string, floats: FloatReader): Result<seq<Field>> {
    var v :- Loads(text, floats);
    Ok(v.fields)
  }

  function Yaml(floats: FloatReader): Codec {
    Codec(text => FieldsIn(text, floats), fields => Dumps(Map(fields)))
  }

  // ----- reading back -----

  /** A document with its non-finite floats turned to words. */
  function Worded(fields: seq<Field>, floats: FloatReader): (worded: seq<Field>)
    ensures |worded| == |fields|
  {
    FieldsOf(RereadEntries(EntriesOf(fields), floats))
  }

  function WordedValue(v: Value, floats: FloatReader): Value {
    ValueOf(RereadNode(TreeOf(v), floats))
  }

  /**
   * A printed document reads back with its non-finite floats turned to words, unless the line lexer refuses one of its
   * keys or strings.
   */
  lemma PrintedReads(fields: seq<Field>, floats: FloatReader)
    requires fields != [] && Printable(Map(fields)) && Genuine(Map(fields), floats)
    ensures Dumps(Map(fields)).Ok?
    ensures FieldsIn(Dumps(Map(fields)).value, floats)
         == if Lexable(Map(fields)) then Ok(Worded(fields, floats)) else Err
  {
    LoadsOfDumps(Map(fields), floats);
    TreeLex(Map(fields), 0);
  }

  lemma {:induction false} WordedAt(fields: seq<Field>, floats: FloatReader, i: nat)
    requires i < |fields|
    ensures Worded(fields, floats)[i] == Field(fields[i].key, WordedValue(fields[i].value, floats))
    decreases i
  {
    var entries := EntriesOf(fields);
    var reread := RereadEntries(entries, floats);
    assert entries[1..] == EntriesOf(fields[1..]) && reread[1..] == RereadEntries(entries[1..], floats);
    assert FieldsOf(reread)[1..] == FieldsOf(reread[1..]);
    if i > 0 {
      WordedAt(fields[1..], floats, i - 1);
      assert Worded(fields, floats)[1..] == Worded(fields[1..], floats);
    }
  }

  lemma WordedKeys(fields: seq<Field>, floats: FloatReader)
    ensures Keys(Worded(fields, floats)) == Keys(fields)
    ensures UniqueKeys(fields) ==> UniqueKeys(Worded(fields, floats))
  {
    forall i | 0 <= i < |fields|
      ensures Worded(fields, floats)[i].key == fields[i].key
    {
      WordedAt(fields, floats, i);
    }
  }

  lemma WordedGet(fields: seq<Field>, floats: FloatReader, key: string)
    requires UniqueKeys(fields)
    ensures Get(Worded(fields, floats), key)
         == match Get(fields, key) case None => None case Some(v) => Some(WordedValue(v, floats))
  {
    var worded := Worded(fields, floats);
    WordedKeys(fields, floats);
    GetLacks(fields, key);
    GetLacks(worded, key);
    KeysIn(fields, key);
    KeysIn(worded, key);
    if Get(fields, key).Some? {
      var i :| 0 <= i < |fields| && fields[i] == Field(key, Get(fields, key).value);
      WordedAt(fields, floats, i);
      GetAt(fields, i);
      GetAt(worded, i);
    }
  }

  lemma WordedSimple(v: Value, floats: FloatReader)
    ensures WordedValue(v, floats).Map? <==> v.Map?
    ensures v.Map? ==> WordedValue(v, floats) == Map(Worded(v.fields, floats))
    ensures v.Str? || v.Null? ==> WordedValue(v, floats) == v
  {
    if v.Map? && v.fields == [] {
      assert TreeOf(v) == Inline(v);
    }
  }

  // ----- merging what was read back -----

  /** What a document contributes when it is merged over a parent holds no float that reads back as a word. */
  predicate FiniteOver(parent: seq<Field>, child: seq<Field>)
    decreases child, 1
  {
    forall i :: 0 <= i < |child| && child[i].key != EXTENDS ==> FiniteOverAt(parent, child, i)
  }

  predicate FiniteOverAt(parent: seq<Field>, child: seq<Field>, i: nat)
    requires i < |child|
    decreases child, 0
  {
    match Get(parent, child[i].key)
    case Some(Map(older)) =>
      if child[i].value.Map? then FiniteOver(older, child[i].value.fields) else Finite(child[i].value)
    case _ => Finite(child[i].value)
  }

  /** Merging a document read back gives the same as merging it, exactly when all it contributes is finite. */
  lemma {:induction false} MergeWorded(parent: seq<Field>, child: seq<Field>, floats: FloatReader)
    requires Tidy(parent) && UniqueKeys(child) && FieldsGenuine(child, floats)
    ensures Merge(parent, Worded(child, floats)) == Merge(parent, child) <==> FiniteOver(parent, child)
    decreases child, 1
  {
    var a, b := Merge(parent, Worded(child, floats)), Merge(parent, child);
    WordedKeys(child, floats);
    forall i | 0 <= i < |child| && child[i].key != EXTENDS
      ensures Get(a, child[i].key) == Get(b, child[i].key) <==> FiniteOverAt(parent, child, i)
    {
      MergeWordedAt(parent, child, floats, i);
    }
    if FiniteOver(parent, child) {
      MergeKeys(parent, child);
      MergeKeys(parent, Worded(child, floats));
      MergeUnique(parent, child);
      MergeUnique(parent, Worded(child, floats));
      forall key | key in Keys(a)
        ensures Get(a, key) == Get(b, key)
      {
        MergeGet(parent, child, key);
        MergeGet(parent, Worded(child, floats), key);
        WordedGet(child, floats, key);
        GetLacks(child, key);
        if key != EXTENDS && Get(child, key).Some? {
          var i :| 0 <= i < |child| && child[i] == Field(key, Get(child, key).value);
          assert FiniteOverAt(parent, child, i);
        }
      }
      SameFields(a, b);
    }
  }

  lemma {:induction false} MergeWordedAt(parent: seq<Field>, child: seq<Field>, floats: FloatReader, i: nat)
    requires Tidy(parent) && UniqueKeys(child) && FieldsGenuine(child, floats)
    requires i < |child| && child[i].key != EXTENDS
    ensures Get(Merge(parent, Worded(child, floats)), child[i].key) == Get(Merge(parent, child), child[i].key)
       <==> FiniteOverAt(parent, child, i)
    decreases child, 0
  {
    var key, v := child[i].key, child[i].value;
    WordedKeys(child, floats);
    GetAt(child, i);
    WordedGet(child, floats, key);
    MergeGet(parent, child, key);
    MergeGet(parent, Worded(child, floats), key);
    WordedSimple(v, floats);
    FieldGenuine(child, i, floats);
    RereadSame(v, floats);
    match Get(parent, key)
    case Some(Map(older)) =>
      GetTidy(parent, key);
      if v.Map? {
        MergeWorded(older, v.fields, floats);
      }
    case _ =>
  }

  // ----- overlays -----

  lemma YamlTidy(floats: FloatReader)
    requires ReprReader(floats)
    ensures forall text :: Yaml(floats).read(text).Ok? ==> Tidy(Yaml(floats).read(text).value)
  {
    forall text | Yaml(floats).read(text).Ok?
      ensures Tidy(Yaml(floats).read(text).value)
    {
      LoadedGenuine(text, floats);
    }
  }

  /** A file with one word set: it can be printed only if its keys are safe, and then reads back as it says here. */
  lemma ChangedReads(floats: FloatReader, text: string, where: seq<string>, word: string)
    requires ReprReader(floats) && where != [] && FieldsIn(text, floats).Ok?
    requires SetDefaultDeep(FieldsIn(text, floats).value, where, Str(word)).Ok?
    requires Dumps(Map(SetDefaultDeep(FieldsIn(text, floats).value, where, Str(word)).value)).Ok?
    ensures var leaf := SetDefaultDeep(FieldsIn(text, floats).value, where, Str(word)).value;
            && UniqueKeys(leaf) && FieldsGenuine(leaf, floats)
            && FieldsIn(Dumps(Map(leaf)).value, floats)
               == if Lexable(Map(leaf)) then Ok(Worded(leaf, floats)) else Err
  {
    var before := FieldsIn(text, floats).value;
    var leaf := SetDefaultDeep(before, where, Str(word)).value;
    LoadedGenuine(text, floats);
    SetDefaultGenuine(before, where, Str(word), floats);
    SetDefaultFrame(before, where, Str(word), where);
    assert leaf != [];
    PrintedReads(leaf, floats);
  }

  /** An overlay reads back as the changed leaf exactly when that has finite floats and no text the lexer breaks. */
  lemma OverlayRereads(floats: FloatReader, text: string, where: seq<string>, word: string)
    requires ReprReader(floats) && where != [] && FieldsIn(text, floats).Ok?
    requires SetDefaultDeep(FieldsIn(text, floats).value, where, Str(word)).Ok?
    requires Dumps(Map(SetDefaultDeep(FieldsIn(text, floats).value, where, Str(word)).value)).Ok?
    ensures var leaf := SetDefaultDeep(FieldsIn(text, floats).value, where, Str(word)).value;
            FieldsIn(Dumps(Map(leaf)).value, floats) == Ok(leaf) <==> Finite(Map(leaf)) && Lexable(Map(leaf))
  {
    ChangedReads(floats, text, where, word);
    RereadFieldsSame(SetDefaultDeep(FieldsIn(text, floats).value, where, Str(word)).value, floats);
  }

  /** Text whose first line is a single brace, as that of every printed JSON object is, is refused. */
  lemma JsonRefused(rest: string, floats: FloatReader)
    ensures Yaml(floats).read("{\n" + rest).Err?
  {
    var text := "{\n" + rest;
    assert text[0] == '{' && text[1] == '\n';
    assert SplitLines(text)[0] == "{" by {
      BreakSecond(text);
    }
    LexBrace();
    var lexed := LexAll(SplitLines(text));
    if lexed.Ok? {
      assert lexed.value[0] == Line(0, "{");
      assert MappingParts("{").Err?;
      assert Classify("{", floats).Err?;
      assert ParseEntries(lexed.value, 0, [], floats).Err?;
      assert ParseBlock(lexed.value, 0, floats).Err?;
    }
  }

  lemma BreakSecond(text: string)
    requires |text| >= 2 && text[0] == '{' && text[1] == '\n'
    ensures SplitLines(text)[0] == "{"
  {
    assert text[1..][0] == '\n';
    assert BreakAt(text) == 1;
    assert text[..1] == "{";
  }

  lemma LexBrace()
    ensures LexLine("{") == Ok(Some(Line(0, "{")))
  {
    assert "{"[1..] == "" && "{"[..1] == "{";
    assert CommentFree("{") == Ok("{");
  }
}
