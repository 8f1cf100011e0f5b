/** Room names as scraped ("3107 (Main building)"), split twice: once by the parser service and
    once more by the store before the rows are written. */
module RoomNames {
  import opened Text

  const UNKNOWN_ROOM := "unknown"
  const STORE_BUILDING := "\U{041D}\U{0413}\U{0423}"
  const IMPORTED_CAPACITY := 30

  /** The part both layers share: "name (building)" when both parts are non-empty. */
  function SplitAtParentheses(room: string): (r: (string, string))
    ensures r.1 == "" ==> r.0 == room
    ensures room != "" ==> r.0 != ""
    ensures r.1 != "" ==> |r.1| < LastIndex(room, ')') - LastIndex(room, '(')
  {
    var open := LastIndex(room, '(');
    var close := LastIndex(room, ')');
    if open > 0 && close > open then
      var name := TrimSpace(room[..open]);
      var building := TrimSpace(room[open + 1..close]);
      if name != "" && building != "" then (name, building) else (room, "")
    else (room, "")
  }

  /** `normalizeRoom` of the parser service. */
  function NormalizeRoom(raw: string, defaultBuilding: string): (r: (string, string))
    ensures r.0 != ""
    ensures defaultBuilding != "" ==> r.1 != ""
  {
    var room := TrimSpace(raw);
    if room == "" then (UNKNOWN_ROOM, defaultBuilding)
    else
      var (name, building) := SplitAtParentheses(room);
      if building != "" then (name, building) else (room, defaultBuilding)
  }

  lemma {:induction false} LastIndexIs(a: string, c: char, b: string)
    requires c !in b
    ensures LastIndex(a + [c] + b, c) == |a|
    decreases |b|
  {
    if b != "" {
      var n := |b| - 1;
      LastIndexIs(a, c, b[..n]);
      assert (a + [c] + b)[..|a| + 1 + n] == a + [c] + b[..n];
      assert b[n] in b;
    }
  }

  /** The last "(" and the last ")" decide: what is before and between them, trimmed, if neither is blank. */
  lemma ParenthesesInWords(name: string, building: string, rest: string)
    requires '(' !in building && '(' !in rest && ')' !in rest
    ensures var room := name + "(" + building + ")" + rest;
            SplitAtParentheses(room) ==
            if Blank(name) || Blank(building) then (room, "") else (TrimSpace(name), TrimSpace(building))
  {
    hide TrimSpace, LastIndex, Blank;
    var room, open, close := name + "(" + building + ")" + rest, |name|, |name| + 1 + |building|;
    assert room == name + ['('] + (building + ")" + rest);
    LastIndexIs(name, '(', building + ")" + rest);
    assert room == (name + "(" + building) + [')'] + rest;
    LastIndexIs(name + "(" + building, ')', rest);
    assert room[..open] == name;
    assert room[open + 1..close] == building;
  }

  /** Without a "(", or without a ")" after the last one, there is nothing to split. */
  lemma NoParentheses(room: string, after: string)
    requires '(' !in room || exists before :: room == before + "(" + after && '(' !in after && ')' !in after
    ensures SplitAtParentheses(room) == (room, "")
  {
    if '(' in room {
      var before :| room == before + "(" + after && '(' !in after && ')' !in after;
      LastIndexIs(before, '(', after);
      assert forall k | |before| < k < |room| :: room[k] == after[k - |before| - 1];
    }
  }

  /** A name with no "(" is only trimmed, and a blank one has its stand-in; the building is the default. */
  lemma PlainName(raw: string, defaultBuilding: string)
    requires '(' !in raw
    ensures NormalizeRoom(raw, defaultBuilding) == (if Blank(raw) then "unknown" else TrimSpace(raw), defaultBuilding)
  {
    var room := TrimSpace(raw);
    var before, after := TrimSpaceInWords(raw);
    assert forall i | 0 <= i < |room| :: room[i] == raw[|before| + i];
    NoParentheses(room, "");
  }

  function OrElse(s: string, fallback: string): (r: string)
    requires fallback != ""
    ensures r != "" && (s != "" ==> r == s)
  {
    if s == "" then fallback else s
  }

  /** `normalizeParsedRoom` of the store. */
  function NormalizeParsedRoom(name: string, building: string, capacity: int): (r: (string, string, int))
    ensures r.0 != "" && r.1 != "" && r.2 > 0
    ensures building != "" ==> r.1 == building && (name != "" ==> r.0 == name)
    ensures capacity > 0 ==> r.2 == capacity
  {
    var parsed := if building == "" then SplitAtParentheses(TrimSpace(name)) else (name, building);
    var n := if parsed.0 != "" then parsed.0 else name;
    (OrElse(n, UNKNOWN_ROOM), OrElse(parsed.1, STORE_BUILDING), if capacity <= 0 then IMPORTED_CAPACITY else capacity)
  }

  /** `roomKey`: the two columns of the unique index, joined by a NUL character. */
  function RoomKey(building: string, name: string): (k: string)
    ensures |k| == |building| + 1 + |name|
  {
    building + ['\0'] + name
  }

  predicate NulFree(s: string) { '\0' !in s }

  /** The key of a storable room is the key of no other pair of strings at all: a pair that
      contains NUL characters cannot alias a storable one either. */
  lemma RoomKeyInjective(b1: string, n1: string, b2: string, n2: string)
    requires NulFree(b1) && NulFree(n1)
    requires RoomKey(b1, n1) == RoomKey(b2, n2)
    ensures b1 == b2 && n1 == n2
  {
    var k := RoomKey(b1, n1);
    assert k[|b2|] == '\0';
    assert forall i :: 0 <= i < |k| && i != |b1| ==> k[i] != '\0' by {
      assert forall i :: 0 <= i < |b1| ==> b1[i] in b1;
      assert forall i :: 0 <= i < |n1| ==> n1[i] in n1;
    }
    assert k[..|b1|] == b1 && k[..|b2|] == b2;
    assert k[|b1| + 1..] == n1 && k[|b2| + 1..] == n2;
  }

  /** The printed form of a room and its building. */
  function Printed(name: string, building: string): string {
    name + " (" + building + ")"
  }

  /** Where the parentheses of a printed room are. */
  lemma PrintedShape(name: string, building: string)
    requires name != "" && Trimmed(name)
    ensures var s := Printed(name, building);
            && TrimSpace(s) == s
            && LastIndex(s, ')') == |s| - 1
            && LastIndex(s, '(') >= |name| + 1
            && (LastIndex(s, '(') == |name| + 1 <==> '(' !in building)
  {
    var s := Printed(name, building);
    assert s[0] == name[0] && s[|s| - 1] == ')';
    assert s[|name| + 1] == '(';
    assert forall i :: 0 <= i < |building| ==> s[|name| + 2 + i] == building[i];
    var open := LastIndex(s, '(');
    if open > |name| + 1 {
      assert building[open - |name| - 2] == '(';
    }
  }

  /** With a "(" in the building, the text between the last parentheses is a proper part of it. */
  lemma ShorterBuilding(s: string, name: string, building: string, defaultBuilding: string)
    requires TrimSpace(s) == s && |s| == |name| + 3 + |building|
    requires LastIndex(s, '(') > |name| + 1 && LastIndex(s, ')') == |s| - 1
    ensures NormalizeRoom(s, defaultBuilding) != (name, building)
  {
    var split := SplitAtParentheses(s);
    assert split.1 == "" || |split.1| < |building|;
    assert |s| > |name|;
  }

  lemma TrimTrailingBlank(s: string)
    requires s != "" && Trimmed(s)
    ensures TrimSpace(s + " ") == s
  {
    assert TrimLeft(s + " ") == s + " ";
    assert (s + " ")[..|s|] == s;
    assert TrimRight(s + " ") == TrimRight(s) == s;
  }

  /** Printing then splitting gives back both parts exactly when the building has no "(". */
  lemma PrintedRoundTrip(name: string, building: string, defaultBuilding: string)
    requires name != "" && building != "" && Trimmed(name) && Trimmed(building)
    ensures NormalizeRoom(Printed(name, building), defaultBuilding) == (name, building) <==> '(' !in building
  {
    hide LastIndex, TrimSpace, Blank, SplitAtParentheses;
    var s := Printed(name, building);
    PrintedShape(name, building);
    if '(' !in building {
      assert s == (name + " ") + "(" + building + ")" + "";
      ParenthesesInWords(name + " ", building, "");
      TrimTrailingBlank(name);
      assert TrimSpace(building) == building;
      assert SplitAtParentheses(s) == (name, building);
      assert TrimSpace(s) == s && s != "";
    } else {
      ShorterBuilding(s, name, building, defaultBuilding);
    }
  }

  /** The store's pass changes nothing that the parser service has already normalised, so the two
      layers compute the same room for every raw name. */
  lemma SecondPassIsIdentity(raw: string, defaultBuilding: string, capacity: int)
    requires defaultBuilding != "" && capacity > 0
    ensures var (name, building) := NormalizeRoom(raw, defaultBuilding);
            NormalizeParsedRoom(name, building, capacity) == (name, building, capacity)
  {
  }

  /** What stands in for what is missing. */
  lemma StoreDefaults(name: string, building: string, capacity: int)
    ensures var (n, b, c) := NormalizeParsedRoom(name, building, capacity);
            && (building != "" ==> n == (if name == "" then "unknown" else name) && b == building)
            && (building == "" && '(' !in name ==> b == "\U{041D}\U{0413}\U{0423}")
            && (building == "" && '(' !in name && !Blank(name) ==> n == TrimSpace(name))
            && (name == "" ==> n == "unknown")
            && c == if capacity > 0 then capacity else 30
  {
    if building == "" && '(' !in name {
      var room := TrimSpace(name);
      var before, after := TrimSpaceInWords(name);
      assert forall i | 0 <= i < |room| :: room[i] == name[|before| + i];
      NoParentheses(room, "");
    }
  }

  lemma NormalizeParsedRoomIdempotent(name: string, building: string, capacity: int)
    ensures var (n, b, c) := NormalizeParsedRoom(name, building, capacity);
            NormalizeParsedRoom(n, b, c) == (n, b, c)
  {
  }

  /** Given no building, the store's own splitting agrees with the parser's exactly on the names
      that are empty or have a character that is not white space. */
  lemma LayersAgree(raw: string, capacity: int)
    ensures var (name, building, _) := NormalizeParsedRoom(raw, "", capacity);
            (name, building) == NormalizeRoom(raw, STORE_BUILDING) <==> raw == "" || !Blank(raw)
  {
    if raw != "" && Blank(raw) {
      assert TrimSpace(raw) == "";
      assert NormalizeParsedRoom(raw, "", capacity).0 == raw;
      assert IsSpace(raw[0]);
    } else if raw == "" {
      assert TrimSpace(raw) == "";
    }
  }
}
