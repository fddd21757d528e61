/** The measurands a charge point is asked to sample: the comma-separated list it reports, merged
    with the ones the system needs (server/system_handler.go). */
module Measurands {

  // ---------- strings ----------

  /** The pieces between commas; an empty string is one empty piece. */
  function Split(s: string): (parts: seq<string>)
    ensures parts != []
  {
    if s == "" then [""]
    else
      var rest := Split(s[1..]);
      if s[0] == ',' then [""] + rest else [[s[0]] + rest[0]] + rest[1..]
  }

  function Join(parts: seq<string>): string {
    if parts == [] then ""
    else if |parts| == 1 then parts[0]
    else parts[0] + "," + Join(parts[1..])
  }

  predicate CommaFree(s: string) {
    ',' !in s
  }

  lemma {:induction false} SplitCommaFree(s: string)
    ensures forall part :: part in Split(s) ==> CommaFree(part)
  {
    if s != "" {
      SplitCommaFree(s[1..]);
      var rest := Split(s[1..]);
      assert CommaFree(rest[0]);
      forall part | part in Split(s) ensures CommaFree(part) {
        assert part in rest || part == "" || part == [s[0]] + rest[0];
      }
    }
  }

  /** Joining undoes splitting, on every string. */
  lemma {:induction false} JoinSplit(s: string)
    ensures Join(Split(s)) == s
  {
    if s != "" {
      JoinSplit(s[1..]);
      var rest := Split(s[1..]);
      if s[0] == ',' {
        assert Split(s)[1..] == rest;
      } else if |rest| > 1 {
        assert Split(s)[1..] == rest[1..];
        assert Join(Split(s)) == [s[0]] + (rest[0] + "," + Join(rest[1..]));
      }
    }
  }

  /** Splitting undoes joining, on comma-free pieces. */
  lemma {:induction false} SplitJoin(parts: seq<string>)
    requires parts != [] && forall part :: part in parts ==> CommaFree(part)
    ensures Split(Join(parts)) == parts
  {
    if |parts| == 1 {
      SplitPiece(parts[0], []);
      assert parts[0] + "" == parts[0];
      assert parts == [parts[0]];
    } else {
      SplitJoin(parts[1..]);
      SplitPiece(parts[0], parts[1..]);
      assert Join(parts) == parts[0] + ("," + Join(parts[1..]));
      assert parts == [parts[0]] + parts[1..];
    }
  }

  /** A comma-free piece in front stays one piece. */
  lemma {:induction false} SplitPiece(piece: string, rest: seq<string>)
    requires CommaFree(piece) && (rest != [] ==> Split(Join(rest)) == rest)
    ensures Split(piece + (if rest == [] then "" else "," + Join(rest))) == [piece] + rest
  {
    var tail := if rest == [] then "" else "," + Join(rest);
    if piece == "" {
      assert piece + tail == tail;
      assert rest != [] ==> tail[1..] == Join(rest);
    } else {
      SplitPiece(piece[1..], rest);
      assert (piece + tail)[1..] == piece[1..] + tail;
      assert [piece[0]] + piece[1..] == piece;
      assert piece[0] != ',';
    }
  }

  predicate Space(c: char) {
    c == ' ' || '\t' <= c <= '\r' || c == '\U{85}' || c == '\U{A0}'
  }

  function TrimLeft(s: string): string {
    if s != "" && Space(s[0]) then TrimLeft(s[1..]) else s
  }

  function TrimRight(s: string): string {
    if s != "" && Space(s[|s| - 1]) then TrimRight(s[..|s| - 1]) else s
  }

  function Trim(s: string): string {
    TrimRight(TrimLeft(s))
  }

  predicate Trimmed(s: string) {
    s == "" || (!Space(s[0]) && !Space(s[|s| - 1]))
  }

  lemma {:induction false} TrimLeftDrops(s: string)
    ensures TrimLeft(s) == "" || !Space(TrimLeft(s)[0])
    ensures CommaFree(TrimLeft(s)) <==> CommaFree(s)
  {
    if s != "" && Space(s[0]) {
      TrimLeftDrops(s[1..]);
      assert s == [s[0]] + s[1..];
    }
  }

  lemma {:induction false} TrimRightDrops(s: string)
    ensures TrimRight(s) <= s
    ensures TrimRight(s) == "" || !Space(TrimRight(s)[|TrimRight(s)| - 1])
    ensures CommaFree(TrimRight(s)) <==> CommaFree(s)
  {
    if s != "" && Space(s[|s| - 1]) {
      TrimRightDrops(s[..|s| - 1]);
      assert s == s[..|s| - 1] + [s[|s| - 1]];
    }
  }

  lemma TrimDrops(s: string)
    ensures Trimmed(Trim(s))
    ensures CommaFree(Trim(s)) <==> CommaFree(s)
  {
    TrimLeftDrops(s);
    TrimRightDrops(TrimLeft(s));
  }

  /** A text is white space, a part, and white space. */
  predicate Cut(s: string, i: int, j: int, part: string) {
    && 0 <= i <= j <= |s| && part == s[i..j]
    && (forall k :: 0 <= k < i ==> Space(s[k])) && (forall k :: j <= k < |s| ==> Space(s[k]))
  }

  /** Trimming takes white space off both ends, all of it, and nothing else. */
  lemma TrimExactly(s: string)
    ensures Trimmed(Trim(s))
    ensures exists i, j :: Cut(s, i, j, Trim(s))
  {
    TrimDrops(s);
    var i := TrimLeftCuts(s);
    var n := TrimRightCuts(s[i..]);
    CutTwice(s, i, n);
  }

  lemma CutTwice(s: string, i: nat, n: nat)
    requires i <= |s| && (forall k :: 0 <= k < i ==> Space(s[k]))
    requires n <= |s| - i && (forall k :: n <= k < |s| - i ==> Space(s[i..][k]))
    ensures Cut(s, i, i + n, s[i..][..n])
  {
    forall k | i + n <= k < |s| ensures Space(s[k]) {
      assert s[i..][k - i] == s[k];
    }
  }

  lemma {:induction false} TrimLeftCuts(s: string) returns (i: nat)
    ensures i <= |s| && s[i..] == TrimLeft(s) && forall k :: 0 <= k < i ==> Space(s[k])
    decreases |s|
  {
    i := 0;
    if s != "" && Space(s[0]) {
      var n := TrimLeftCuts(s[1..]);
      forall k | 0 < k < n + 1 ensures Space(s[k]) {
        assert s[1..][k - 1] == s[k];
      }
      i := n + 1;
      assert s[i..] == s[1..][n..];
    }
  }

  lemma {:induction false} TrimRightCuts(s: string) returns (n: nat)
    ensures n <= |s| && s[..n] == TrimRight(s) && forall k :: n <= k < |s| ==> Space(s[k])
    decreases |s|
  {
    n := |s|;
    if s != "" && Space(s[n - 1]) {
      var front := s[..|s| - 1];
      n := TrimRightCuts(front);
      forall k | n <= k < |s| - 1 ensures Space(s[k]) {
        assert front[k] == s[k];
      }
      assert s[..n] == front[..n];
    }
  }

  lemma TrimAgain(s: string)
    requires Trimmed(s)
    ensures Trim(s) == s
  {
  }

  function LowerChar(c: char): char {
    if 'A' <= c <= 'Z' then c - 'A' + 'a' else c
  }

  function Lower(s: string): string {
    seq(|s|, i requires 0 <= i < |s| => LowerChar(s[i]))
  }

  /** The same letter, in one case or the other; no other characters are alike. */
  predicate SameLetter(a: char, b: char) {
    a == b || ('A' <= a <= 'Z' && b as int == a as int + 32) || ('A' <= b <= 'Z' && a as int == b as int + 32)
  }

  /** Two names are the same in lower case exactly when they agree letter by letter but for the case. */
  lemma LowerExactly(a: string, b: string)
    ensures Lower(a) == Lower(b) <==> |a| == |b| && forall i :: 0 <= i < |a| ==> SameLetter(a[i], b[i])
  {
    if Lower(a) == Lower(b) {
      assert |a| == |Lower(a)| && |b| == |Lower(b)|;
      forall i | 0 <= i < |a| ensures SameLetter(a[i], b[i]) {
        assert Lower(a)[i] == Lower(b)[i];
      }
    }
    if |a| == |b| && forall i :: 0 <= i < |a| ==> SameLetter(a[i], b[i]) {
      forall i | 0 <= i < |a| ensures Lower(a)[i] == Lower(b)[i] {
        assert SameLetter(a[i], b[i]);
      }
      assert Lower(a) == Lower(b);
    }
  }

  lemma LowerComma(s: string)
    ensures CommaFree(Lower(s)) <==> CommaFree(s)
  {
    assert forall i :: 0 <= i < |s| ==> (Lower(s)[i] == ',' <==> s[i] == ',');
    if !CommaFree(s) {
      var i :| 0 <= i < |s| && s[i] == ',';
      assert Lower(s)[i] == ',';
    }
  }

  // ---------- the list ----------

  /** The entries of a list: its pieces trimmed, blanks dropped. */
  function Entries(parts: seq<string>): seq<string> {
    if parts == [] then []
    else (if Trim(parts[0]) == "" then [] else [Trim(parts[0])]) + Entries(parts[1..])
  }

  /** An entry names a measurand, whatever the case of its letters. */
  predicate Includes(entries: seq<string>, name: string) {
    exists k :: 0 <= k < |entries| && Lower(entries[k]) == Lower(name)
  }

  /** A required name the list still lacks. Blank names require nothing. */
  predicate Missing(entries: seq<string>, name: string) {
    Trim(name) != "" && !Includes(entries, Trim(name))
  }

  function Completed(entries: seq<string>, required: seq<string>): seq<string>
    decreases |required|
  {
    if required == [] then entries
    else Completed(if Missing(entries, required[0]) then entries + [Trim(required[0])] else entries, required[1..])
  }

  function Merged(current: string, required: seq<string>): seq<string> {
    Completed(Entries(Split(current)), required)
  }

  /** The names already seen, in lower case. */
  function Names(entries: seq<string>): set<string> {
    if entries == [] then {} else Names(entries[..|entries| - 1]) + {Lower(entries[|entries| - 1])}
  }

  lemma NamesMore(entries: seq<string>, item: string)
    ensures Names(entries + [item]) == Names(entries) + {Lower(item)}
  {
    assert (entries + [item])[..|entries|] == entries;
  }

  lemma {:induction false} NamesInclude(entries: seq<string>, name: string)
    ensures Lower(name) in Names(entries) <==> Includes(entries, name)
  {
    if entries != [] {
      var front := entries[..|entries| - 1];
      NamesInclude(front, name);
      assert Includes(front, name) ==> Includes(entries, name) by {
        if Includes(front, name) {
          IncludesMore(front, entries, name);
        }
      }
      if Includes(entries, name) {
        var k :| 0 <= k < |entries| && Lower(entries[k]) == Lower(name);
        assert k < |front| ==> front[k] == entries[k];
      }
    }
  }

  lemma EntriesNext(prefix: seq<string>, parts: seq<string>, i: nat)
    requires i < |parts|
    ensures prefix + Entries(parts[i..])
         == (if Trim(parts[i]) == "" then prefix else prefix + [Trim(parts[i])]) + Entries(parts[i + 1..])
  {
    var rest := Entries(parts[i + 1..]);
    assert parts[i..][1..] == parts[i + 1..];
    if Trim(parts[i]) == "" {
      assert [] + rest == rest;
    } else {
      assert prefix + ([Trim(parts[i])] + rest) == (prefix + [Trim(parts[i])]) + rest;
    }
  }

  lemma CompletedNext(entries: seq<string>, required: seq<string>, j: nat)
    requires j < |required|
    ensures Completed(entries, required[j..])
         == Completed(if Missing(entries, required[j]) then entries + [Trim(required[j])] else entries, required[j + 1..])
  {
    assert required[j..][1..] == required[j + 1..];
  }

  method MergeMeasurands(current: string, required: seq<string>) returns (merged: string, changed: bool)
    ensures merged == Join(Merged(current, required))
    ensures changed <==> exists k :: 0 <= k < |required| && Missing(Entries(Split(current)), required[k])
  {
    var existing: seq<string> := [];
    var seen: set<string> := {};
    var parts := Split(current);
    ghost var was := Entries(parts);
    var i := 0;
    while i < |parts|
      invariant 0 <= i <= |parts|
      invariant existing + Entries(parts[i..]) == was
      invariant seen == Names(existing)
    {
      var item := Trim(parts[i]);
      EntriesNext(existing, parts, i);
      if item != "" {
        NamesMore(existing, item);
        existing := existing + [item];
        seen := seen + {Lower(item)};
      }
      i := i + 1;
    }
    assert parts[i..] == [];
    changed := false;
    var j := 0;
    while j < |required|
      invariant 0 <= j <= |required|
      invariant if changed then |existing| > |was| else existing == was
      invariant Completed(existing, required[j..]) == Merged(current, required)
      invariant seen == Names(existing)
    {
      var measurand := Trim(required[j]);
      CompletedNext(existing, required, j);
      NamesInclude(existing, measurand);
      if measurand != "" && Lower(measurand) !in seen {
        NamesMore(existing, measurand);
        existing := existing + [measurand];
        seen := seen + {Lower(measurand)};
        changed := true;
      }
      j := j + 1;
    }
    assert required[j..] == [];
    CompletedSameExactly(was, required);
    merged := Join(existing);
  }

  lemma IncludesMore(entries: seq<string>, all: seq<string>, name: string)
    requires entries <= all && Includes(entries, name)
    ensures Includes(all, name)
  {
    var k :| 0 <= k < |entries| && Lower(entries[k]) == Lower(name);
    assert all[k] == entries[k];
  }

  /** Merging keeps the charge point's own entries in front, then adds names that were required and
      not there; nothing required stays missing, and no name is added twice. */
  lemma {:induction false} CompletedKeeps(entries: seq<string>, required: seq<string>)
    ensures var all := Completed(entries, required);
            && entries <= all
            && (forall j :: 0 <= j < |required| ==> !Missing(all, required[j]))
            && (forall k :: |entries| <= k < |all| ==> !Includes(all[..k], all[k]) && Required(all[k], required))
    decreases |required|
  {
    if required != [] {
      var all := Completed(entries, required);
      var name := Trim(required[0]);
      var next := if Missing(entries, required[0]) then entries + [name] else entries;
      CompletedKeeps(next, required[1..]);
      forall j | 0 <= j < |required| ensures !Missing(all, required[j]) {
        if j == 0 {
          if name != "" {
            assert |next| > |entries| ==> next[|entries|] == name;
            IncludesMore(next, all, name);
          }
        } else {
          assert required[j] == required[1..][j - 1];
        }
      }
      forall k | |entries| <= k < |all| ensures !Includes(all[..k], all[k]) && Required(all[k], required) {
        if k < |next| {
          assert all[k] == name && all[..k] == entries;
        } else {
          var j :| 0 <= j < |required[1..]| && all[k] == Trim(required[1..][j]) != "";
          assert required[1..][j] == required[j + 1];
        }
      }
    }
  }

  predicate Required(entry: string, required: seq<string>) {
    exists j :: 0 <= j < |required| && entry == Trim(required[j]) != ""
  }

  /** The merge adds something exactly when a required name was missing. */
  lemma {:induction false} CompletedSameExactly(entries: seq<string>, required: seq<string>)
    ensures Completed(entries, required) == entries <==> forall j :: 0 <= j < |required| ==> !Missing(entries, required[j])
    decreases |required|
  {
    if required != [] {
      if Missing(entries, required[0]) {
        CompletedKeeps(entries + [Trim(required[0])], required[1..]);
      } else {
        CompletedSameExactly(entries, required[1..]);
        assert forall j :: 0 < j < |required| ==> required[j] == required[1..][j - 1];
      }
    }
  }

  // ---------- merging again ----------

  /** An entry a comma-separated list can carry. */
  predicate Carried(entry: string) {
    entry != "" && Trimmed(entry) && CommaFree(entry)
  }

  lemma {:induction false} EntriesCarried(parts: seq<string>)
    requires forall part :: part in parts ==> CommaFree(part)
    ensures forall entry :: entry in Entries(parts) ==> Carried(entry)
  {
    if parts != [] {
      TrimDrops(parts[0]);
      EntriesCarried(parts[1..]);
    }
  }

  /** Reading back a joined list of such entries gives the list. */
  lemma {:induction false} EntriesSame(parts: seq<string>)
    requires forall part :: part in parts ==> Carried(part)
    ensures Entries(parts) == parts
  {
    if parts != [] {
      assert Carried(parts[0]);
      TrimAgain(parts[0]);
      EntriesSame(parts[1..]);
      assert parts == [parts[0]] + parts[1..];
    }
  }

  lemma ReadBack(entries: seq<string>)
    requires forall entry :: entry in entries ==> Carried(entry)
    ensures Entries(Split(Join(entries))) == entries
  {
    if entries == [] {
      assert Split("") == [""];
    } else {
      SplitJoin(entries);
      EntriesSame(entries);
    }
  }

  /** Merging the same names into its own output changes nothing, and gives the output back, exactly
      when none of the names has a comma in it. */
  lemma MergeAgainExactly(current: string, required: seq<string>)
    ensures var out := Join(Merged(current, required));
            (Merged(out, required) == Entries(Split(out)) && Join(Merged(out, required)) == out)
            <==> forall j :: 0 <= j < |required| && Trim(required[j]) != "" ==> CommaFree(required[j])
  {
    var all := Merged(current, required);
    var out := Join(all);
    SplitCommaFree(current);
    EntriesCarried(Split(current));
    CompletedKeeps(Entries(Split(current)), required);
    CompletedSameExactly(Entries(Split(out)), required);
    if forall j :: 0 <= j < |required| && Trim(required[j]) != "" ==> CommaFree(required[j]) {
      forall entry | entry in all ensures Carried(entry) {
        var k :| 0 <= k < |all| && all[k] == entry;
        if k >= |Entries(Split(current))| {
          var j :| 0 <= j < |required| && entry == Trim(required[j]) != "";
          TrimDrops(required[j]);
        } else {
          assert entry == Entries(Split(current))[k];
        }
      }
      ReadBack(all);
    } else {
      var j :| 0 <= j < |required| && Trim(required[j]) != "" && !CommaFree(required[j]);
      SplitCommaFree(out);
      EntriesCarried(Split(out));
      CommaStaysMissing(Entries(Split(out)), required[j]);
    }
  }

  /** A name with a comma is never found among the entries of a list. */
  lemma CommaStaysMissing(entries: seq<string>, name: string)
    requires (forall entry :: entry in entries ==> Carried(entry)) && Trim(name) != "" && !CommaFree(name)
    ensures Missing(entries, name)
  {
    TrimDrops(name);
    LowerComma(Trim(name));
    forall k | 0 <= k < |entries| ensures Lower(entries[k]) != Lower(Trim(name)) {
      assert Carried(entries[k]);
      LowerComma(entries[k]);
    }
  }
}
