/**
 * The character loops of strict_yaml.py, with their quote and escape variables, each of them proved to compute its
 * reading as a function of the text.
 */
module Scanners {
  import opened Results
  import opened Text

  /** The program's two scanner variables read as one position. */
  function Position(quote: Option<char>, escaped: bool): Quote {
    if escaped then Escape
    else match quote
      case None => Plain
      case Some(c) => if c == '"' then Double else Single
  }

  ghost predicate Scanning(quote: Option<char>, escaped: bool, q: Quote) {
    && (quote.Some? ==> quote.value in "'\"")
    && (escaped ==> quote == Some('"'))
    && q == Position(quote, escaped)
  }

  method StripComment(text: string) returns (r: Result<string>)
    ensures r == CommentFree(text)
  {
    var quote: Option<char> := None;
    var escaped := false;
    for index := 0 to |text|
      invariant Scanning(quote, escaped, Position(quote, escaped))
      invariant Run(Plain, text) == Run(Position(quote, escaped), text[index..])
      invariant CommentAt(true, Plain, text)
             == index + CommentAt(index == 0 || IsSpace(text[index - 1]), Position(quote, escaped), text[index..])
    {
      var c := text[index];
      assert text[index..][0] == c && text[index..][1..] == text[index + 1..];
      if escaped {
        escaped := false;
      } else if quote == Some('"') && c == '\\' {
        escaped := true;
      } else if c == '\'' || c == '"' {
        if quote == None {
          quote := Some(c);
        } else if quote == Some(c) {
          quote := None;
        }
      } else if c == '#' && quote == None && (index == 0 || IsSpace(text[index - 1])) {
        return Ok(RStrip(text[..index]));
      }
    }
    if quote != None {
      return Err;
    }
    return Ok(RStrip(text));
  }

  method SplitMapping(text: string) returns (r: Result<(string, string)>)
    ensures r == MappingParts(text)
  {
    var quote: Option<char> := None;
    var depth := 0;
    var escaped := false;
    for index := 0 to |text|
      invariant Scanning(quote, escaped, Position(quote, escaped))
      invariant ColonAt(Plain, 0, text) == index + ColonAt(Position(quote, escaped), depth, text[index..])
    {
      var c := text[index];
      assert text[index..][0] == c && text[index..][1..] == text[index + 1..];
      if escaped {
        escaped := false;
      } else if quote == Some('"') && c == '\\' {
        escaped := true;
      } else if c == '\'' || c == '"' {
        if quote == None {
          quote := Some(c);
        } else if quote == Some(c) {
          quote := None;
        }
      } else if quote == None {
        if c == '[' {
          depth := depth + 1;
        } else if c == ']' {
          depth := depth - 1;
        } else if c == ':' && depth == 0 {
          return Ok((Strip(text[..index]), Strip(text[index + 1..])));
        }
      }
    }
    return Err;
  }

  method SplitInline(value: string) returns (r: Result<seq<string>>)
    ensures r == InlineParts(value)
  {
    var result: seq<string> := [];
    var start := 0;
    var quote: Option<char> := None;
    var escaped := false;
    ghost var piece := "";
    for index := 0 to |value|
      invariant Scanning(quote, escaped, Position(quote, escaped))
      invariant 0 <= start <= index && piece == value[start..index]
      invariant CommaPieces(Plain, "", value) == result + CommaPieces(Position(quote, escaped), piece, value[index..])
    {
      var c := value[index];
      assert value[index..][1..] == value[index + 1..];
      if escaped {
        escaped := false;
      } else if quote == Some('"') && c == '\\' {
        escaped := true;
      } else if c == '\'' || c == '"' {
        if quote == None {
          quote := Some(c);
        } else if quote == Some(c) {
          quote := None;
        }
      } else if c == ',' && quote == None {
        result := result + [Strip(value[start..index])];
        start := index + 1;
      }
      if start == index + 1 {
        piece := "";
      } else {
        piece := piece + [c];
        assert value[start..index + 1] == value[start..index] + [c];
      }
    }
    assert piece == value[start..];
    result := result + [Strip(value[start..])];
    if "" in result {
      return Err;
    }
    return Ok(result);
  }
}
