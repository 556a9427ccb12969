/** Editing the Windows PATH variable: a list of entries separated by semicolons, compared loosely. */
module PathEditor {
  import opened Text
  import Query

  const SEPARATOR: char := ';'

  predicate IsQuote(c: char) { c == '"' }

  predicate IsSlash(c: char) { c == '\\' || c == '/' }

  predicate IsSeparator(c: char) { c == SEPARATOR }

  /** What entries are compared by: no outer space or quotes, no trailing slashes, no upper case. */
  function Normalized(entry: string): string {
    ToAsciiLower(TrimEnd(TrimEnd(TrimStart(Trim(entry), IsQuote), IsQuote), IsSlash))
  }

  predicate IsEntry(candidate: string) { !IsBlank(candidate) }

  function NotLike(key: string): string -> bool {
    (c: string) => Normalized(c) != key
  }

  function EntryNotLike(key: string): string -> bool {
    (c: string) => IsEntry(c) && Normalized(c) != key
  }

  predicate Matches(candidate: string, key: string) {
    IsEntry(candidate) && Normalized(candidate) == key
  }

  predicate Contains(value: string, entry: string) {
    exists candidate :: candidate in Split(value, SEPARATOR) && Matches(candidate, Normalized(entry))
  }

  function Add(value: string, entry: string): string {
    if Contains(value, entry) then value
    else
      var kept := TrimEnd(value, IsSeparator);
      if kept == "" then entry else kept + [SEPARATOR] + entry
  }

  function Remove(value: string, entry: string): string {
    Join(Query.Where(Split(value, SEPARATOR), EntryNotLike(Normalized(entry))), SEPARATOR)
  }

  /** The entries a PATH value really has. */
  function Entries(value: string): seq<string> {
    Query.Where(Split(value, SEPARATOR), IsEntry)
  }

  // -------------------------------------------------------------------------
  // Separators in entries
  // -------------------------------------------------------------------------

  /** Normalization neither removes nor invents a separator. */
  lemma NormalizedKeepsSeparators(entry: string)
    ensures SEPARATOR in Normalized(entry) <==> SEPARATOR in entry
  {
    var a := TrimStart(entry, IsWhitespace);
    var b := Trim(entry);
    var c := TrimStart(b, IsQuote);
    var d := TrimEnd(c, IsQuote);
    var e := TrimEnd(d, IsSlash);
    TrimStartKeeps(entry, IsWhitespace);
    TrimEndKeeps(a, IsWhitespace);
    TrimStartKeeps(b, IsQuote);
    TrimEndKeeps(c, IsQuote);
    TrimEndKeeps(d, IsSlash);
    assert SEPARATOR in e <==> SEPARATOR in Normalized(entry) by {
      if SEPARATOR in e {
        var i :| 0 <= i < |e| && e[i] == SEPARATOR;
        assert Normalized(entry)[i] == SEPARATOR;
      }
    }
  }

  lemma TrimStartKeeps(s: string, drop: char -> bool)
    requires !drop(SEPARATOR)
    ensures SEPARATOR in TrimStart(s, drop) <==> SEPARATOR in s
  {
    TrimStartResult(s, drop);
    var r := TrimStart(s, drop);
    assert forall i :: |s| - |r| <= i < |s| ==> r[i - (|s| - |r|)] == s[i];
  }

  lemma TrimEndKeeps(s: string, drop: char -> bool)
    requires !drop(SEPARATOR)
    ensures SEPARATOR in TrimEnd(s, drop) <==> SEPARATOR in s
  {
    TrimEndResult(s, drop);
    var r := TrimEnd(s, drop);
    assert forall i :: 0 <= i < |r| ==> r[i] == s[i];
  }

  /** An entry with a separator is never found. */
  lemma ContainedHasNoSeparator(value: string, entry: string)
    requires Contains(value, entry)
    ensures SEPARATOR !in entry
  {
    var candidate :| candidate in Split(value, SEPARATOR) && Matches(candidate, Normalized(entry));
    SplitPieces(value, SEPARATOR);
    NormalizedKeepsSeparators(candidate);
    NormalizedKeepsSeparators(entry);
  }

  lemma ContainsIsMembership(value: string, entry: string)
    ensures Contains(value, entry) <==> exists c :: c in Entries(value) && Normalized(c) == Normalized(entry)
  {
    Query.WhereMembers(Split(value, SEPARATOR), IsEntry);
  }

  // -------------------------------------------------------------------------
  // What the operations do to the entries
  // -------------------------------------------------------------------------

  /** Trailing separators hold no entries. */
  lemma {:induction false} TrailingSeparators(value: string)
    ensures Entries(TrimEnd(value, IsSeparator)) == Entries(value)
  {
    if |value| > 0 && IsSeparator(value[|value| - 1]) {
      var shorter := value[..|value| - 1];
      TrailingSeparators(shorter);
      EntriesConcat(shorter, "");
      NoEntries();
      assert shorter + [SEPARATOR] + "" == value;
    }
  }

  lemma EntriesConcat(a: string, b: string)
    ensures Entries(a + [SEPARATOR] + b) == Entries(a) + Entries(b)
  {
    SplitConcat(a, b, SEPARATOR);
    Query.WhereConcat(Split(a, SEPARATOR), Split(b, SEPARATOR), IsEntry);
  }

  lemma OneEntry(entry: string)
    requires SEPARATOR !in entry
    ensures Entries(entry) == if IsBlank(entry) then [] else [entry]
  {
    SplitWhole(entry, SEPARATOR);
    FilterOne(entry, IsEntry);
  }

  lemma FilterOne(entry: string, keep: string -> bool)
    ensures Query.Where([entry], keep) == if keep(entry) then [entry] else []
  {
    assert [entry][1..] == [];
  }

  lemma NoEntries()
    ensures IsBlank("") && Entries("") == []
  {
    OneEntry("");
  }

  /** Adding appends the entry behind all entries there are, unless it is there already. */
  lemma AddAppends(value: string, entry: string)
    ensures Entries(Add(value, entry)) == Entries(value) + if Contains(value, entry) then [] else Entries(entry)
  {
    if !Contains(value, entry) {
      var kept := TrimEnd(value, IsSeparator);
      TrailingSeparators(value);
      if kept == "" { NoEntries(); } else { EntriesConcat(kept, entry); }
    }
  }

  function Others(entries: seq<string>, key: string): seq<string> {
    Query.Where(entries, NotLike(key))
  }

  lemma {:induction false} FilterTwice(parts: seq<string>, key: string)
    ensures Query.Where(parts, EntryNotLike(key))
         == Others(Query.Where(parts, IsEntry), key)
  {
    if parts != [] { FilterTwice(parts[1..], key); }
  }

  lemma RemovedIsJoin(value: string, entry: string)
    ensures Remove(value, entry) == Join(Others(Entries(value), Normalized(entry)), SEPARATOR)
  {
    FilterTwice(Split(value, SEPARATOR), Normalized(entry));
  }

  lemma EntriesHaveNoSeparator(value: string, key: string)
    ensures forall c :: c in Entries(value) ==> SEPARATOR !in c && !IsBlank(c)
    ensures forall c :: c in Others(Entries(value), key) ==> c in Entries(value) && Normalized(c) != key
  {
    SplitPieces(value, SEPARATOR);
    Query.WhereMembers(Split(value, SEPARATOR), IsEntry);
    Query.WhereMembers(Entries(value), NotLike(key));
  }

  /** Removing keeps exactly the unrelated entries, in their order. */
  lemma RemoveKeepsOthers(value: string, entry: string)
    ensures Entries(Remove(value, entry)) == Others(Entries(value), Normalized(entry))
  {
    var rest := Others(Entries(value), Normalized(entry));
    RemovedIsJoin(value, entry);
    EntriesHaveNoSeparator(value, Normalized(entry));
    if rest == [] {
      NoEntries();
    } else {
      SplitOfJoin(rest, SEPARATOR);
      Query.WhereAll(rest, IsEntry);
    }
  }

  // -------------------------------------------------------------------------
  // Laws of adding and removing
  // -------------------------------------------------------------------------

  /** After adding, the entry is there exactly if it could be one at all, or was there before. */
  lemma AddedIsContained(value: string, entry: string)
    ensures Contains(Add(value, entry), entry)
      <==> Contains(value, entry) || (SEPARATOR !in entry && !IsBlank(entry))
  {
    AddAppends(value, entry);
    ContainsIsMembership(value, entry);
    ContainsIsMembership(Add(value, entry), entry);
    if SEPARATOR !in entry {
      OneEntry(entry);
      if !Contains(value, entry) && !IsBlank(entry) {
        assert Entries(Add(value, entry)) == Entries(value) + [entry];
        assert entry in Entries(Add(value, entry));
      }
    } else if Contains(Add(value, entry), entry) {
      ContainedHasNoSeparator(Add(value, entry), entry);
    }
  }

  predicate OnlySeparators(s: string) {
    forall c :: c in s ==> c == SEPARATOR
  }

  lemma {:induction false} TrimSeparators(s: string)
    ensures TrimEnd(s, IsSeparator) == "" <==> OnlySeparators(s)
  {
    TrimEndResult(s, IsSeparator);
    var r := TrimEnd(s, IsSeparator);
    if r == "" {
      assert forall i :: 0 <= i < |s| ==> IsSeparator(s[i]);
    } else {
      assert r[|r| - 1] == s[|r| - 1] && s[|r| - 1] in s;
    }
  }

  lemma {:induction false} TrimOfJoined(kept: string, entry: string)
    requires kept == "" || !IsSeparator(kept[|kept| - 1])
    ensures var value := if kept == "" then entry else kept + [SEPARATOR] + entry;
            var trimmed := TrimEnd(entry, IsSeparator);
            TrimEnd(value, IsSeparator) == if trimmed == "" then kept else value[..|value| - |entry|] + trimmed
    decreases |entry|
  {
    var value := if kept == "" then entry else kept + [SEPARATOR] + entry;
    if entry == "" {
      if kept != "" { assert value[..|value| - 1] == kept; }
    } else if IsSeparator(entry[|entry| - 1]) {
      var shorter := entry[..|entry| - 1];
      TrimOfJoined(kept, shorter);
      assert value[..|value| - 1] == if kept == "" then shorter else kept + [SEPARATOR] + shorter;
    } else {
      assert value == value[..|value| - |entry|] + entry;
    }
  }

  /** A second add changes nothing exactly when the first one made the entry found, or the entry is nothing but separators. */
  lemma SecondAdd(value: string, entry: string)
    ensures Add(Add(value, entry), entry) == Add(value, entry)
      <==> Contains(Add(value, entry), entry) || OnlySeparators(entry)
  {
    var once := Add(value, entry);
    if !Contains(once, entry) {
      assert !Contains(value, entry);
      var kept := TrimEnd(value, IsSeparator);
      TrimEndResult(value, IsSeparator);
      TrimSeparators(entry);
      TrimOfJoined(kept, entry);
    }
  }

  /** Adding twice is adding once, exactly when the entry is there already, is a proper one, or is nothing but separators. */
  lemma AddTwice(value: string, entry: string)
    ensures Add(Add(value, entry), entry) == Add(value, entry)
      <==> Contains(value, entry) || (SEPARATOR !in entry && !IsBlank(entry)) || OnlySeparators(entry)
  {
    SecondAdd(value, entry);
    AddedIsContained(value, entry);
  }

  /** After removing, the entry is never there. */
  lemma RemovedIsAbsent(value: string, entry: string)
    ensures !Contains(Remove(value, entry), entry)
  {
    RemoveKeepsOthers(value, entry);
    ContainsIsMembership(Remove(value, entry), entry);
    EntriesHaveNoSeparator(value, Normalized(entry));
  }

  /** Removing after adding is removing alone, exactly for entries without separators and for blank ones. */
  lemma RemoveUndoesAdd(value: string, entry: string)
    ensures Remove(Add(value, entry), entry) == Remove(value, entry) <==> SEPARATOR !in entry || Entries(entry) == []
  {
    var key := Normalized(entry);
    AddAppends(value, entry);
    RemovedIsJoin(value, entry);
    RemovedIsJoin(Add(value, entry), entry);
    if Contains(value, entry) {
      ContainedHasNoSeparator(value, entry);
    } else {
      Query.WhereConcat(Entries(value), Entries(entry), NotLike(key));
      var before, added := Others(Entries(value), key), Others(Entries(entry), key);
      if SEPARATOR !in entry {
        OneEntry(entry);
        FilterOne(entry, NotLike(key));
        assert added == [] && before + [] == before;
      } else {
        PiecesNeverMatch(entry);
        assert added == Entries(entry);
        EntriesHaveNoSeparator(entry, key);
        if added == [] { assert before + [] == before; } else { JoinGrows(before, added); }
      }
    }
  }

  /** The pieces of an entry with a separator are all unrelated to it. */
  lemma PiecesNeverMatch(entry: string)
    requires SEPARATOR in entry
    ensures Others(Entries(entry), Normalized(entry)) == Entries(entry)
  {
    forall c | c in Entries(entry) ensures Normalized(c) != Normalized(entry) {
      EntriesHaveNoSeparator(entry, "");
      NormalizedKeepsSeparators(c);
      NormalizedKeepsSeparators(entry);
    }
    Query.WhereAll(Entries(entry), NotLike(Normalized(entry)));
  }

  lemma {:induction false} JoinGrows(a: seq<string>, b: seq<string>)
    requires b != [] && forall c :: c in b ==> !IsBlank(c)
    ensures |Join(a + b, SEPARATOR)| > |Join(a, SEPARATOR)|
  {
    if a == [] {
      assert a + b == b;
      NoEntries();
    } else {
      assert (a + b)[1..] == a[1..] + b;
      JoinGrows(a[1..], b);
    }
  }

  // -------------------------------------------------------------------------
  // Which entries are the same
  // -------------------------------------------------------------------------

  predicate AllAre(s: string, kind: char -> bool) {
    forall i :: 0 <= i < |s| ==> kind(s[i])
  }

  /** Neither space nor quotes around it, and no slash behind it. */
  predicate IsBare(core: string) {
    && core != "" && !IsWhitespace(core[0]) && !IsQuote(core[0])
    && var last := core[|core| - 1]; !IsWhitespace(last) && !IsQuote(last) && !IsSlash(last)
  }

  lemma {:induction false} StartIsTrimmed(a: string, s: string, drop: char -> bool)
    requires AllAre(a, drop) && (s == "" || !drop(s[0]))
    ensures TrimStart(a + s, drop) == s
  {
    if a == "" {
      assert a + s == s;
    } else {
      assert (a + s)[1..] == a[1..] + s;
      StartIsTrimmed(a[1..], s, drop);
    }
  }

  lemma {:induction false} EndIsTrimmed(s: string, a: string, drop: char -> bool)
    requires AllAre(a, drop) && (s == "" || !drop(s[|s| - 1]))
    ensures TrimEnd(s + a, drop) == s
  {
    if a == "" {
      assert s + a == s;
    } else {
      assert (s + a)[..|s + a| - 1] == s + a[..|a| - 1];
      EndIsTrimmed(s, a[..|a| - 1], drop);
    }
  }

  /** The same directory written with space, quotes or slashes around it. */
  function Written(space: string, quotes: string, core: string, slashes: string, endQuotes: string, endSpace: string): string {
    space + ((quotes + ((core + slashes) + endQuotes)) + endSpace)
  }

  ghost predicate IsDress(space: string, quotes: string, slashes: string, endQuotes: string, endSpace: string) {
    && AllAre(space, IsWhitespace) && AllAre(endSpace, IsWhitespace)
    && AllAre(quotes, IsQuote) && AllAre(endQuotes, IsQuote) && AllAre(slashes, IsSlash)
  }

  lemma SpaceIsTrimmed(space: string, inner: string, endSpace: string)
    requires AllAre(space, IsWhitespace) && AllAre(endSpace, IsWhitespace)
    requires inner != "" && !IsWhitespace(inner[0]) && !IsWhitespace(inner[|inner| - 1])
    ensures Trim(space + (inner + endSpace)) == inner
  {
    StartIsTrimmed(space, inner + endSpace, IsWhitespace);
    EndIsTrimmed(inner, endSpace, IsWhitespace);
  }

  lemma QuotesAreTrimmed(quotes: string, body: string, endQuotes: string)
    requires AllAre(quotes, IsQuote) && AllAre(endQuotes, IsQuote)
    requires body != "" && !IsQuote(body[0]) && !IsQuote(body[|body| - 1])
    ensures TrimEnd(TrimStart(quotes + (body + endQuotes), IsQuote), IsQuote) == body
  {
    StartIsTrimmed(quotes, body + endQuotes, IsQuote);
    EndIsTrimmed(body, endQuotes, IsQuote);
  }

  /** Outer space, quotes and trailing slashes do not matter, nor does the case of ASCII letters. */
  lemma ComparedByCore(space: string, quotes: string, core: string, slashes: string, endQuotes: string, endSpace: string)
    requires IsDress(space, quotes, slashes, endQuotes, endSpace) && IsBare(core)
    ensures Normalized(Written(space, quotes, core, slashes, endQuotes, endSpace)) == ToAsciiLower(core)
  {
    var body := core + slashes;
    var inner := quotes + (body + endQuotes);
    assert body[0] == core[0] && body[|body| - 1] == (if slashes == "" then core[|core| - 1] else slashes[|slashes| - 1]);
    assert inner[0] == if quotes == "" then core[0] else quotes[0];
    assert inner[|inner| - 1] == if endQuotes == "" then body[|body| - 1] else endQuotes[|endQuotes| - 1];
    SpaceIsTrimmed(space, inner, endSpace);
    QuotesAreTrimmed(quotes, body, endQuotes);
    EndIsTrimmed(core, slashes, IsSlash);
  }

  /** An entry is found however it is written in the PATH and however it is asked for. */
  lemma FoundHoweverWritten(value: string, stored: string, asked: string)
    requires stored in Entries(value) && Normalized(stored) == Normalized(asked)
    ensures Contains(value, asked) && Add(value, asked) == value
  {
    ContainsIsMembership(value, asked);
  }

  /** Bare entries are the same exactly when they are equal but for the case of ASCII letters. */
  lemma BareEntriesCompareByLetters(a: string, b: string)
    requires IsBare(a) && IsBare(b)
    ensures Normalized(a) == Normalized(b) <==> ToAsciiLower(a) == ToAsciiLower(b)
  {
    ComparedByCore("", "", a, "", "", "");
    ComparedByCore("", "", b, "", "", "");
    NothingAround(a);
    NothingAround(b);
  }

  lemma NothingAround(a: string)
    ensures Written("", "", a, "", "", "") == a
  {
    assert a + "" == a && "" + a == a;
  }
}
