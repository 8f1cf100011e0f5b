/** Homework texts: `subject: text`, and an edit that keeps what is before the first colon. */
module Homework {
  import opened Text

  const BULLET := '\U{2022}'
  const SEPARATOR := [' ', BULLET, ' ']

  datatype Homework = Homework(text: string, status: string, teacherId: int)

  datatype Error = NoTeacher | NoGroup | NotFoundOrForbidden

  datatype Result<+T> = Ok(value: T) | Err(error: Error)

  function Composed(subject: string, text: string): string { subject + ": " + text }

  /** What an edit makes of the words it is given: trimmed, and without one bullet in front. */
  function Cleaned(words: string): string {
    var t := TrimSpace(words);
    TrimSpace(if t != "" && t[0] == BULLET then t[1..] else t)
  }

  lemma NoBlanks()
    ensures Blank("") && Blank(" ")
  {
  }

  lemma BulletCleaned(before: string, blanks: string, c: string, after: string)
    requires Blank(before) && Blank(blanks) && Blank(after) && Trimmed(c)
    ensures Cleaned(before + [BULLET] + blanks + c + after) == c
  {
    hide TrimSpace, Blank;
    var words := before + [BULLET] + blanks + c + after;
    if c == "" {
      assert words == before + [BULLET] + (blanks + after);
      BlankBoth(blanks, after);
      TrimmedIsMiddle(before, [BULLET], blanks + after);
      assert [BULLET][1..] == "" && TrimSpace("") == "";
    } else {
      var shown := [BULLET] + blanks + c;
      assert words == before + shown + after;
      assert shown[|shown| - 1] == c[|c| - 1];
      TrimmedIsMiddle(before, shown, after);
      assert shown[1..] == blanks + c + "";
      assert Blank("") by { NoBlanks(); }
      TrimmedIsMiddle(blanks, c, "");
    }
  }

  lemma SeparatorCleaned(c: string)
    requires Trimmed(c)
    ensures Cleaned(SEPARATOR + c) == c
  {
    hide Cleaned;
    assert Blank(" ") && Blank("") by { NoBlanks(); }
    assert SEPARATOR + c == " " + [BULLET] + " " + c + "";
    BulletCleaned(" ", " ", c, "");
  }

  /** The words of an edit come out with no white space at the ends, and the line shown for them, bullet and
      all, can be sent again to the same effect. */
  lemma CleanedAgain(words: string)
    ensures Trimmed(Cleaned(words)) && Cleaned(SEPARATOR + Cleaned(words)) == Cleaned(words)
  {
    SeparatorCleaned(Cleaned(words));
  }

  ghost predicate MiddleOf(words: string, before: string, c: string, after: string) {
    || (words == before + c + after && (c == "" || c[0] != '\U{2022}'))
    || exists blanks :: Blank(blanks) && words == before + ['\U{2022}'] + blanks + c + after
  }

  /** The words without the white space around them and without one bullet in front, and nothing else taken away. */
  ghost predicate CleanedFrom(words: string, c: string) {
    && Trimmed(c)
    && exists before, after :: Blank(before) && Blank(after) && MiddleOf(words, before, c, after)
  }

  lemma PlainMiddle(words: string, before: string, c: string, after: string)
    requires words == before + c + after && (c == "" || c[0] != BULLET)
    ensures MiddleOf(words, before, c, after)
  {
  }

  lemma BulletMiddle(words: string, before: string, t: string, blanks: string, c: string, rest: string, after: string)
    requires words == before + t + after && t != "" && t[0] == BULLET && t[1..] == blanks + c + rest && Blank(blanks)
    ensures MiddleOf(words, before, c, rest + after)
  {
    assert t == [BULLET] + t[1..];
    assert words == before + [BULLET] + blanks + c + (rest + after);
  }

  lemma CleanedInWords(words: string)
    ensures CleanedFrom(words, Cleaned(words))
  {
    hide TrimSpace, Blank, MiddleOf;
    var t, c := TrimSpace(words), Cleaned(words);
    var before, after := TrimSpaceInWords(words);
    if t != "" && t[0] == BULLET {
      var blanks, rest := TrimSpaceInWords(t[1..]);
      BlankBoth(rest, after);
      BulletMiddle(words, before, t, blanks, c, rest, after);
    } else {
      PlainMiddle(words, before, c, after);
    }
  }

  /** It says all there is to say. */
  lemma CleanedUnique(words: string, c: string)
    requires CleanedFrom(words, c)
    ensures c == Cleaned(words)
  {
    hide TrimSpace;
    var before, after :| Blank(before) && Blank(after) && MiddleOf(words, before, c, after);
    if words == before + c + after && (c == "" || c[0] != BULLET) {
      if c != "" { TrimmedIsMiddle(before, c, after); }
    } else {
      var blanks :| Blank(blanks) && words == before + [BULLET] + blanks + c + after;
      BulletCleaned(before, blanks, c, after);
    }
  }

  /** The part an edit keeps: up to and with the first colon. */
  function Prefix(text: string): (r: string)
    ensures r <= text && (r != "" <==> ':' in text)
    ensures r != "" ==> r[|r| - 1] == ':' && ':' !in r[..|r| - 1]
  {
    var i := IndexOf(text, ':');
    if i < 0 then "" else text[..i + 1]
  }

  function Edited(text: string, words: string): string {
    if Prefix(text) != "" then Prefix(text) + SEPARATOR + Cleaned(words) else Cleaned(words)
  }

  ghost predicate NewTail(text: string, c: string, after: string) {
    exists head, tail :: ':' !in head && text == head + ":" + tail && after == head + ": \U{2022} " + c
  }

  /** The text after an edit: what was before the first colon, the colon, a bullet and the words cleaned; without a
      colon, the words alone. */
  ghost predicate EditedInto(text: string, words: string, after: string) {
    exists c :: CleanedFrom(words, c) && if ':' in text then NewTail(text, c, after) else after == c
  }

  lemma Joint(head: string, c: string)
    ensures head + ":" + SEPARATOR + c == head + ": \U{2022} " + c
  {
    assert ":" + SEPARATOR == ": \U{2022} ";
    assert head + ":" + SEPARATOR == head + (":" + SEPARATOR);
  }

  lemma TailReplaced(text: string, c: string)
    requires ':' in text
    ensures NewTail(text, c, Prefix(text) + SEPARATOR + c)
  {
    hide Prefix;
    var p := Prefix(text);
    var head, tail := p[..|p| - 1], text[|p|..];
    assert p == head + ":" && text == p + tail;
    Joint(head, c);
  }

  lemma EditedInWords(text: string, words: string)
    ensures EditedInto(text, words, Edited(text, words))
  {
    hide CleanedFrom, Cleaned, NewTail;
    CleanedInWords(words);
    if ':' in text { TailReplaced(text, Cleaned(words)); }
  }

  function EditAll(text: string, edits: seq<string>): string {
    if edits == [] then text else Edited(EditAll(text, edits[..|edits| - 1]), edits[|edits| - 1])
  }

  lemma FirstColon(a: string, b: string)
    requires ':' !in a
    ensures Prefix(a + [':'] + b) == a + [':']
  {
    var s := a + [':'] + b;
    var i := IndexOf(s, ':');
    assert s[|a|] == ':';
    assert forall k | 0 <= k < |a| :: s[k] == a[k];
    assert s[..|a| + 1] == a + [':'];
  }

  lemma PrefixStays(text: string, sep: string, words: string)
    requires ':' in text
    ensures Prefix(Prefix(text) + sep + words) == Prefix(text)
  {
    hide Prefix;
    var p := Prefix(text);
    var a := p[..|p| - 1];
    assert p == a + [':'];
    FirstColon(a, sep + words);
    assert p + sep + words == a + [':'] + (sep + words);
  }

  /** A text with a colon keeps what is before it under an edit; so an edit is undone by the next. */
  lemma EditKeepsPrefix(text: string, words: string)
    requires ':' in text
    ensures Prefix(Edited(text, words)) == Prefix(text)
  {
    PrefixStays(text, SEPARATOR, Cleaned(words));
  }

  /** Last writer wins: an edit makes the one before it as if it had not been, exactly when the text has a
      colon to keep or the edit before brought none. */
  lemma LastEditWins(text: string, a: string, b: string)
    ensures ':' in text || ':' !in Cleaned(a) ==> Edited(Edited(text, a), b) == Edited(text, b)
    ensures ':' !in text && ':' in Cleaned(a) ==>
            Edited(Edited(text, a), b) == Prefix(Cleaned(a)) + SEPARATOR + Cleaned(b)
    ensures Edited(Edited(text, a), b) == Edited(text, b) <==> ':' in text || ':' !in Cleaned(a)
  {
    if ':' in text {
      EditKeepsPrefix(text, a);
    } else if ':' in Cleaned(a) {
      assert |Prefix(Cleaned(a)) + SEPARATOR + Cleaned(b)| > |Cleaned(b)|;
    }
  }

  /** Every text a homework can have after it was given out and edited any number of times begins as it did
      up to the first colon, and only the last edit shows. */
  lemma {:induction false} EditsKeepPrefix(subject: string, text: string, edits: seq<string>)
    ensures var t := EditAll(Composed(subject, text), edits);
            && ':' in t && Prefix(t) == Prefix(Composed(subject, text))
            && (edits != [] ==> t == Edited(Composed(subject, text), edits[|edits| - 1]))
  {
    var first := Composed(subject, text);
    assert first[|subject|] == ':';
    if edits != [] {
      var init := EditAll(first, edits[..|edits| - 1]);
      EditsKeepPrefix(subject, text, edits[..|edits| - 1]);
      EditKeepsPrefix(init, edits[|edits| - 1]);
    }
  }

  /** The subject is kept whole exactly when it has no colon of its own. */
  lemma SubjectKept(subject: string, text: string)
    ensures Prefix(Composed(subject, text)) == subject + [':'] <==> ':' !in subject
  {
    var s := Composed(subject, text);
    if ':' !in subject {
      FirstColon(subject, " " + text);
      assert s == subject + [':'] + (" " + text);
    } else {
      var k :| 0 <= k < |subject| && subject[k] == ':';
      assert s[k] == ':';
      assert |Prefix(s)| <= k + 1;
    }
  }

  // ---- the table

  /** Teachers by id with their user ids, groups by id, homeworks, links of groups and homeworks. */
  datatype Tables = Tables(
    teachers: map<int, int>, groups: map<int, string>, homeworks: map<int, Homework>, links: set<(int, int)>,
    nextHomework: int)

  ghost predicate Sound(t: Tables) {
    && (forall i, j | i in t.teachers && j in t.teachers && t.teachers[i] == t.teachers[j] :: i == j)
    && (forall i, j | i in t.groups && j in t.groups && t.groups[i] == t.groups[j] :: i == j)
    && (forall i | i in t.homeworks :: i < t.nextHomework && t.homeworks[i].teacherId in t.teachers)
    && (forall l | l in t.links :: l.0 in t.groups && l.1 in t.homeworks)
  }

  predicate IsTeacher(t: Tables, id: int, userId: int) { id in t.teachers && t.teachers[id] == userId }

  predicate IsGroup(t: Tables, id: int, name: string) { id in t.groups && t.groups[id] == name }

  /** Owned by the teacher that this user is bound to. */
  predicate Owns(t: Tables, userId: int, id: int) {
    id in t.homeworks && IsTeacher(t, t.homeworks[id].teacherId, userId)
  }

  /** The tables with one homework more. */
  function Added(t: Tables, teacherId: int, groupId: int, text: string): Tables {
    t.(homeworks := t.homeworks[t.nextHomework := Homework(text, "new", teacherId)],
       links := t.links + {(groupId, t.nextHomework)},
       nextHomework := t.nextHomework + 1)
  }

  function Rewritten(t: Tables, id: int, words: string): Tables
    requires id in t.homeworks
  {
    t.(homeworks := t.homeworks[id := t.homeworks[id].(text := Edited(t.homeworks[id].text, words))])
  }

  /** Calls by any users; in between, logins and leaves may rebind the teachers. */
  datatype Call =
    | Save(userId: int, teacherId: int, groupId: int, group: string, subject: string, text: string)
    | Edit(userId: int, id: int, words: string)
    | Rebind(teachers: map<int, int>)

  /** A call that is refused changes nothing. The ids of a save are those its lookups find. */
  function Do(t: Tables, c: Call): Tables {
    match c
    case Save(userId, teacherId, groupId, group, subject, text) =>
      if IsTeacher(t, teacherId, userId) && IsGroup(t, groupId, group)
      then Added(t, teacherId, groupId, Composed(subject, text)) else t
    case Edit(userId, id, words) => if Owns(t, userId, id) then Rewritten(t, id, words) else t
    case Rebind(teachers) => t.(teachers := teachers)
  }

  function Run(t: Tables, calls: seq<Call>): Tables {
    if calls == [] then t else Do(Run(t, calls[..|calls| - 1]), calls[|calls| - 1])
  }

  /** New ids are new, and every text has a prefix to keep. */
  predicate Kept(t: Tables) { forall i | i in t.homeworks :: i < t.nextHomework && ':' in t.homeworks[i].text }

  predicate SamePrefixes(before: Tables, after: Tables) {
    forall i | i in before.homeworks ::
      i in after.homeworks && Prefix(after.homeworks[i].text) == Prefix(before.homeworks[i].text)
  }

  lemma ComposedHasColon(subject: string, text: string)
    ensures ':' in Composed(subject, text)
  {
    assert Composed(subject, text)[|subject|] == ':';
  }

  lemma PrefixOfColon(text: string)
    ensures Prefix(text) != "" <==> ':' in text
  {
  }

  lemma StepKeepsPrefixes(t: Tables, c: Call)
    requires Kept(t)
    ensures Kept(Do(t, c)) && SamePrefixes(t, Do(t, c))
  {
    hide Edited, Prefix, Composed;
    match c
    case Save(_, _, _, _, subject, text) => ComposedHasColon(subject, text);
    case Edit(userId, id, words) =>
      if Owns(t, userId, id) {
        EditKeepsPrefix(t.homeworks[id].text, words);
        PrefixOfColon(Edited(t.homeworks[id].text, words));
        PrefixOfColon(t.homeworks[id].text);
      }
    case Rebind(_) =>
  }

  lemma {:induction false} RunKeepsKept(t: Tables, calls: seq<Call>)
    requires Kept(t)
    ensures Kept(Run(t, calls)) && SamePrefixes(t, Run(t, calls))
  {
    if calls != [] {
      RunKeepsKept(t, calls[..|calls| - 1]);
      StepKeepsPrefixes(Run(t, calls[..|calls| - 1]), calls[|calls| - 1]);
    }
  }

  lemma {:induction false} RunAppend(t: Tables, first: seq<Call>, rest: seq<Call>)
    ensures Run(t, first + rest) == Run(Run(t, first), rest)
  {
    if rest == [] {
      assert first + rest == first;
    } else {
      RunAppend(t, first, rest[..|rest| - 1]);
      assert (first + rest)[..|first + rest| - 1] == first + rest[..|rest| - 1];
    }
  }

  /** Over every sequence of saves and edits by any users: a homework that is there at some moment is there ever
      after, with the prefix it had; and what a save adds has the prefix of its own subject and text. */
  lemma PrefixesForEver(t: Tables, calls: seq<Call>, k: nat)
    requires Kept(t) && k <= |calls|
    ensures SamePrefixes(Run(t, calls[..k]), Run(t, calls))
    ensures k < |calls| && calls[k].Save? ==>
              forall i | i in Run(t, calls[..k + 1]).homeworks && i !in Run(t, calls[..k]).homeworks ::
                && i in Run(t, calls).homeworks
                && Prefix(Run(t, calls).homeworks[i].text) == Prefix(Composed(calls[k].subject, calls[k].text))
  {
    RunKeepsKept(t, calls[..k]);
    assert calls == calls[..k] + calls[k..];
    RunAppend(t, calls[..k], calls[k..]);
    RunKeepsKept(Run(t, calls[..k]), calls[k..]);
    if k < |calls| {
      assert calls[..k + 1][..k] == calls[..k];
      RunKeepsKept(t, calls[..k + 1]);
      assert calls == calls[..k + 1] + calls[k + 1..];
      RunAppend(t, calls[..k + 1], calls[k + 1..]);
      RunKeepsKept(Run(t, calls[..k + 1]), calls[k + 1..]);
    }
  }

  class HomeworkRepo {
    var teachers: map<int, int>
    var groups: map<int, string>
    var homeworks: map<int, Homework>
    var links: set<(int, int)>
    var nextHomework: int

    function Now(): Tables reads this { Tables(teachers, groups, homeworks, links, nextHomework) }

    ghost predicate Valid() reads this { Sound(Now()) }

    /** A new homework for one group, the author's own; all other homeworks stay as they were. */
    method SaveForGroup(userId: int, group: string, subject: string, text: string) returns (r: Result<int>)
      requires Valid()
      modifies this`homeworks, this`links, this`nextHomework
      ensures Valid()
      ensures r == Err(NoTeacher) <==> !exists t :: IsTeacher(old(Now()), t, userId)
      ensures r == Err(NoGroup) <==>
              (exists t :: IsTeacher(old(Now()), t, userId)) && !exists g :: IsGroup(old(Now()), g, group)
      ensures r.Err? ==> r.error != NotFoundOrForbidden && Now() == old(Now())
      ensures r == Err(NoTeacher) <==> forall t | t in teachers :: teachers[t] != userId
      ensures r == Err(NoGroup) ==> forall g | g in groups :: groups[g] != group
      ensures r.Ok? ==>
                && (forall i | i in old(homeworks) :: i in homeworks && homeworks[i] == old(homeworks)[i])
                && (forall i | i in homeworks :: i in old(homeworks) || i == r.value)
                && r.value in homeworks && homeworks[r.value].text == subject + ": " + text
                && homeworks[r.value].status == "new"
                && homeworks[r.value].teacherId in teachers && teachers[homeworks[r.value].teacherId] == userId
                && exists g :: g in groups && groups[g] == group && links == old(links) + {(g, r.value)}
      ensures r.Ok? ==> && r.value !in old(homeworks) && Owns(Now(), userId, r.value)
                        && exists t, g :: Now() == Do(old(Now()), Save(userId, t, g, group, subject, text))
    {
      if !exists t :: t in teachers && IsTeacher(Now(), t, userId) { return Err(NoTeacher); }
      var teacherId :| teacherId in teachers && IsTeacher(Now(), teacherId, userId);
      if !exists g :: g in groups && IsGroup(Now(), g, group) { return Err(NoGroup); }
      var groupId :| groupId in groups && IsGroup(Now(), groupId, group);
      ghost var before := Now();
      var id := nextHomework;
      nextHomework := nextHomework + 1;
      homeworks := homeworks[id := Homework(Composed(subject, text), "new", teacherId)];
      links := links + {(groupId, id)};
      assert Now() == Do(before, Save(userId, teacherId, groupId, group, subject, text));
      return Ok(id);
    }

    /** Edits the text of one's own homework and nothing else. */
    method Update(userId: int, id: int, words: string) returns (r: Result<()>)
      requires Valid()
      modifies this`homeworks
      ensures Valid()
      ensures r == if Owns(old(Now()), userId, id) then Ok(()) else Err(NotFoundOrForbidden)
      ensures Now() == Do(old(Now()), Edit(userId, id, words))
      ensures r.Ok? <==> && id in old(homeworks) && old(homeworks)[id].teacherId in teachers
                         && teachers[old(homeworks)[id].teacherId] == userId
      ensures r.Ok? ==> && id in homeworks && EditedInto(old(homeworks)[id].text, words, homeworks[id].text)
                        && homeworks == old(homeworks)[id := old(homeworks)[id].(text := homeworks[id].text)]
      ensures r.Err? ==> homeworks == old(homeworks)
    {
      hide EditedInto, Edited;
      if !Owns(Now(), userId, id) { return Err(NotFoundOrForbidden); }
      EditedInWords(homeworks[id].text, words);
      homeworks := homeworks[id := homeworks[id].(text := Edited(homeworks[id].text, words))];
      return Ok(());
    }
  }
}
