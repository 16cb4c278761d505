/** The router's scanner as it runs: an index that moves through the body, a depth and a string flag. */
module ProviderScanner {
  import opened Wrappers
  import opened ProviderRecord

  method FindKey(body: string, key: string) returns (at: Option<nat>)
    ensures at == IndexOf(body, key, 0)
  {
    var i := 0;
    while i + |key| <= |body|
      invariant IndexOf(body, key, 0) == IndexOf(body, key, i)
      decreases |body| - i
    {
      if body[i..i + |key|] == key { return Some(i); }
      i := i + 1;
    }
    return None;
  }

  /** What is still to be scanned from `index` on. */
  function Remaining(body: string, start: nat, index: nat, depth: int, inString: bool): Option<nat>
    requires start <= index
  {
    if index > |body| then None
    else Shift(ScanEnd(body[index..], depth, if inString then Inside else Outside), index - start)
  }

  lemma Backslash(body: string, start: nat, index: nat, depth: int)
    requires start <= index < |body| && body[index] == '\\'
    ensures Remaining(body, start, index, depth, true) == Remaining(body, start, index + 2, depth, true)
  {
    var next := body[index + 1..];
    assert body[index..][1..] == next;
    assert ScanEnd(body[index..], depth, Inside) == Shift(ScanEnd(next, depth, Escaped), 1);
    if index + 1 < |body| {
      assert next[1..] == body[index + 2..];
      assert ScanEnd(next, depth, Escaped) == Shift(ScanEnd(body[index + 2..], depth, Inside), 1);
    }
  }

  lemma OneCharacter(body: string, start: nat, index: nat, depth: int, inString: bool)
    requires start <= index < |body|
    requires if inString then body[index] != '\\' else body[index] != '}' || depth != 1
    ensures var c := body[index];
            Remaining(body, start, index, depth, inString)
            == Remaining(body, start, index + 1,
                         if inString then depth else if c == '{' then depth + 1 else if c == '}' then depth - 1 else depth,
                         if c == '\"' then !inString else inString)
  {
    assert body[index..][1..] == body[index + 1..];
  }

  /** Where the brace that opens at `start` closes, one past it. */
  method CloseBrace(body: string, start: nat) returns (end: Option<nat>)
    requires start <= |body|
    ensures end == ScanEnd(body[start..], 0, Outside)
  {
    var index, depth, inString := start, 0, false;
    while index < |body|
      invariant start <= index
      invariant Remaining(body, start, index, depth, inString) == Remaining(body, start, start, 0, false)
      decreases |body| - index
    {
      var c := body[index];
      if inString {
        if c == '\\' {
          Backslash(body, start, index, depth);
          index := index + 1;
        } else {
          OneCharacter(body, start, index, depth, true);
          if c == '\"' { inString := false; }
        }
        index := index + 1;
        continue;
      }
      if c == '}' && depth == 1 { return Some(index + 1 - start); }
      OneCharacter(body, start, index, depth, false);
      if c == '\"' { inString := true; }
      else if c == '{' { depth := depth + 1; }
      else if c == '}' { depth := depth - 1; }
      index := index + 1;
    }
    return None;
  }

  /** The payload's text, or nothing when the body has none or does not close it. */
  method ScanPayload(body: string) returns (payload: Option<string>)
    ensures payload == RawPayload(body)
  {
    var at := FindKey(body, PAYLOAD_KEY);
    if at.None? { return None; }
    var index := at.value + |PAYLOAD_KEY|;
    while index < |body| && IsSpace(body[index])
      invariant index <= |body| && SkipSpace(body, index) == SkipSpace(body, at.value + |PAYLOAD_KEY|)
    {
      index := index + 1;
    }
    if index == |body| || body[index] != '{' { return None; }
    var end := CloseBrace(body, index);
    if end.None? { return None; }
    return Some(body[index..index + end.value]);
  }
}
