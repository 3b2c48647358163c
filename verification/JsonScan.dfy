/** `extract_json_object_after`: the brace scanner that cuts a JSON object out of a page. */
module JsonScan {
  import opened Text

  /** The scanner's state between two characters. */
  datatype State = State(depth: int, inStr: bool, escaped: bool)

  const INIT := State(0, false, false)

  function Step(st: State, c: char): State {
    if st.inStr then
      if st.escaped then st.(escaped := false)
      else if c == '\\' then st.(escaped := true)
      else if c == '"' then st.(inStr := false)
      else st
    else if c == '"' then st.(inStr := true)
    else if c == '{' then st.(depth := st.depth + 1)
    else if c == '}' then st.(depth := st.depth - 1)
    else st
  }

  /** The state after a whole text. */
  function After(st: State, t: string): State
    decreases |t|
  {
    if t == [] then st else After(Step(st, t[0]), t[1..])
  }

  /** How many characters of `t` it takes to close all braces; None when `t` ends first. */
  function Closing(st: State, t: string): (r: Option<nat>)
    ensures r.Some? ==> 0 < r.value <= |t|
    decreases |t|
  {
    if t == [] then None
    else
      var next := Step(st, t[0]);
      if !st.inStr && t[0] == '}' && next.depth == 0 then Some(1)
      else Later(Closing(next, t[1..]), 1)
  }

  function Later(r: Option<nat>, k: nat): Option<nat> {
    if r.Some? then Some(r.value + k) else None
  }

  lemma ClosingFrom(html: string, i: nat, st: State)
    requires i < |html|
    ensures Closing(st, html[i..])
         == if !st.inStr && html[i] == '}' && st.depth == 1 then Some(1)
            else Later(Closing(Step(st, html[i]), html[i + 1..]), 1)
  {
    assert html[i..][1..] == html[i + 1..];
  }

  predicate IsGap(c: char) {
    c == ' ' || c == '\t' || c == '\r' || c == '\n' || c == '='
  }

  /** The first character at or after `i` that is neither blank nor '='. */
  function GapEnd(s: string, i: nat): (r: nat)
    requires i <= |s|
    ensures i <= r <= |s|
    ensures forall k :: i <= k < r ==> IsGap(s[k])
    ensures r < |s| ==> !IsGap(s[r])
    decreases |s| - i
  {
    if i == |s| || !IsGap(s[i]) then i else GapEnd(s, i + 1)
  }

  function Extract(html: string, marker: string): Option<string> {
    match Find(html, marker)
    case None => None
    case Some(m) =>
      var start := GapEnd(html, m + |marker|);
      if start < |html| && html[start] != '{' then None
      else
        match Closing(INIT, html[start..])
        case None => None
        case Some(n) => Some(html[start..start + n])
  }

  lemma NoneAtEnd()
    ensures forall st :: Closing(st, "") == None
  {
  }

  /** The scan for the closing brace. Once a brace is open the depth stays positive, so it never underflows. */
  method ScanObject(html: string, start: nat) returns (r: Option<nat>)
    requires start <= |html| && (start < |html| ==> html[start] == '{')
    ensures r == Closing(INIT, html[start..])
  {
    NoneAtEnd();
    hide Closing;
    var i := start;
    var depth: nat := 0;
    var inStr := false;
    var escaped := false;
    while i < |html|
      invariant start <= i <= |html|
      invariant i == start ==> !inStr
      invariant depth == 0 ==> i == start
      invariant Closing(INIT, html[start..]) == Later(Closing(State(depth, inStr, escaped), html[i..]), i - start)
    {
      var b := html[i];
      ClosingFrom(html, i, State(depth, inStr, escaped));
      if inStr {
        if escaped {
          escaped := false;
        } else if b == '\\' {
          escaped := true;
        } else if b == '"' {
          inStr := false;
        }
      } else if b == '"' {
        inStr := true;
      } else if b == '{' {
        depth := depth + 1;
      } else if b == '}' {
        depth := depth - 1;
        if depth == 0 {
          return Some(i + 1 - start);
        }
      }
      i := i + 1;
    }
    return None;
  }

  method ExtractJsonObjectAfter(html: string, marker: string) returns (r: Option<string>)
    ensures r == Extract(html, marker)
  {
    hide Find, Closing;
    var found := Find(html, marker);
    if found.None? {
      return None;
    }
    var i := found.value + |marker|;
    while i < |html| && html[i] != '{'
      invariant i <= |html|
      invariant GapEnd(html, i) == GapEnd(html, found.value + |marker|)
    {
      if !IsGap(html[i]) {
        return None;
      }
      i := i + 1;
    }
    var n := ScanObject(html, i);
    if n.None? {
      return None;
    }
    return Some(html[i..i + n.value]);
  }
}
