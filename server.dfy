/**
 * The pure pieces of the HTTP server: the `screen_` file filters, the choice
 * of LVGL and React file for a screen, the balanced-bracket scan that cuts the
 * `data` literal out of a Sketch export's script, and the artboard lookup.
 */
module Server {
  import opened Common

  // ---------------------------------------------------------------------
  // Screen file filters
  // ---------------------------------------------------------------------

  /** The base name of `dir/name` is `name` when `name` has no separator. */
  lemma {:induction false} BasenameJoin(dir: string, name: string)
    requires forall i :: 0 <= i < |name| ==> name[i] != '/'
    ensures AfterLastSlash(dir + "/" + name) == name
    decreases |name|
  {
    var p := dir + "/" + name;
    if name == [] {
      assert p[|p| - 1] == '/';
    } else {
      var init := name[..|name| - 1];
      BasenameJoin(dir, init);
      assert p[..|p| - 1] == dir + "/" + init;
      assert init + [name[|name| - 1]] == name;
    }
  }

  /**
   * The test applied to each file of the LVGL (`ext` = ".c") or React
   * (`ext` = ".jsx") walk; `path.basename` is the text after the last `/`.
   */
  predicate IsScreenFile(full: string, ext: string) {
    EndsWith(full, ext) && StartsWith(AfterLastSlash(full), "screen_")
  }

  /**
   * The filter of `scanLvgl` (`ext` = ".c") and of `scanReact` (`ext` =
   * ".jsx") over the walked files, kept in walk order.
   */
  function ScreenFiles(files: seq<string>, ext: string): (r: seq<string>)
    ensures forall f :: f in r <==> f in files && EndsWith(f, ext) && StartsWith(AfterLastSlash(f), "screen_")
    ensures IsSubsequence(r, files)
  {
    FilterIsSubsequence(files, f => IsScreenFile(f, ext));
    Filter(files, f => IsScreenFile(f, ext))
  }

  /** A file `dir/name` passes the filter exactly when `name` itself starts `screen_` and ends with the extension. */
  lemma ScreenFileByName(dir: string, name: string, ext: string)
    requires forall i :: 0 <= i < |name| ==> name[i] != '/'
    requires |ext| <= |name|
    ensures IsScreenFile(dir + "/" + name, ext) <==> StartsWith(name, "screen_") && EndsWith(name, ext)
  {
    BasenameJoin(dir, name);
    var p := dir + "/" + name;
    assert p[|p| - |ext|..] == name[|name| - |ext|..];
  }

  // ---------------------------------------------------------------------
  // File choice for /api/build-ir
  // ---------------------------------------------------------------------

  /** The LVGL file for `screen` ("" stands for no screen). */
  function ChooseLvglFile(files: seq<string>, screen: string): (r: Option<string>)
    ensures screen == "" ==> r == if files == [] then None else Some(files[0])
    ensures screen != "" && r.Some? ==> exists i :: 0 <= i < |files| && files[i] == r.value
    ensures screen != "" && (exists i :: 0 <= i < |files| && EndsWith(files[i], screen + ".c")) ==>
      r.Some? && EndsWith(r.value, screen + ".c") &&
      exists i :: 0 <= i < |files| && files[i] == r.value && forall j :: 0 <= j < i ==> !EndsWith(files[j], screen + ".c")
    ensures screen != "" && (forall i :: 0 <= i < |files| ==> !EndsWith(files[i], screen + ".c")) ==>
      (r.Some? <==> exists i :: 0 <= i < |files| && Contains(files[i], screen)) &&
      (r.Some? ==>
        Contains(r.value, screen) &&
        exists i :: 0 <= i < |files| && files[i] == r.value && forall j :: 0 <= j < i ==> !Contains(files[j], screen))
  {
    if screen == "" then
      (if files == [] then None else Some(files[0]))
    else
      match Find(files, f => EndsWith(f, screen + ".c"))
      case Some(i) => Some(files[i])
      case None =>
        match Find(files, f => Contains(f, screen))
        case Some(i) => Some(files[i])
        case None => None
  }

  /** A name ending `<screen>.c` contains `<screen>`. */
  lemma EndsWithContains(f: string, screen: string)
    requires EndsWith(f, screen + ".c")
    ensures Contains(f, screen)
  {
    var i := |f| - |screen| - 2;
    assert f[i..i + |screen|] == (screen + ".c")[..|screen|];
    ContainsAt(f, screen, i);
  }

  /** No LVGL file is chosen exactly when there are no files, or a screen is named and no file path contains it. */
  lemma LvglChoiceNone(files: seq<string>, screen: string)
    ensures ChooseLvglFile(files, screen).None? <==>
      files == [] || (screen != "" && forall i :: 0 <= i < |files| ==> !Contains(files[i], screen))
  {
    if screen != "" && exists i :: 0 <= i < |files| && EndsWith(files[i], screen + ".c") {
      var i :| 0 <= i < |files| && EndsWith(files[i], screen + ".c");
      EndsWithContains(files[i], screen);
    }
  }

  /** The React file for `screen`: the first containing it, or the first file when no screen is named. */
  function ChooseReactFile(files: seq<string>, screen: string): (r: Option<string>)
    ensures screen == "" ==> r == if files == [] then None else Some(files[0])
    ensures screen != "" ==>
      (r.Some? <==> exists i :: 0 <= i < |files| && Contains(files[i], screen)) &&
      (r.Some? ==>
        Contains(r.value, screen) &&
        exists i :: 0 <= i < |files| && files[i] == r.value && forall j :: 0 <= j < i ==> !Contains(files[j], screen))
  {
    if screen == "" then
      (if files == [] then None else Some(files[0]))
    else
      match Find(files, f => Contains(f, screen))
      case Some(i) => Some(files[i])
      case None => None
  }

  // ---------------------------------------------------------------------
  // Balanced-bracket scan of the `data` literal
  // ---------------------------------------------------------------------

  /** The loop's variables: `braceCount`, `inString` and `stringChar`. */
  datatype ScanState = ScanState(count: int, inString: bool, quote: char)

  const Initial := ScanState(0, false, ' ')

  predicate IsOpenBracket(c: char) {
    c == '{' || c == '['
  }

  function CloseOf(open: char): char {
    if open == '{' then '}' else ']'
  }

  predicate IsQuote(c: char) {
    c == '"' || c == '\''
  }

  /**
   * One iteration at position `i`. Inside a string only the matching quote
   * not preceded by a backslash ends it; outside, a quote opens a string and
   * the declared open and close brackets move the counter.
   */
  function Step(text: string, open: char, i: nat, st: ScanState): ScanState
    requires i < |text|
  {
    var c := text[i];
    if st.inString then
      (if c == st.quote && !(i > 0 && text[i - 1] == '\\') then st.(inString := false) else st)
    else if IsQuote(c) then
      ScanState(st.count, true, c)
    else
      st.(count := st.count + (if c == open then 1 else 0) - (if c == CloseOf(open) then 1 else 0))
  }

  /** The state before position `i` when the scan starts at `start` and never stops. */
  function StateAt(text: string, open: char, start: nat, i: nat): ScanState
    requires start <= i <= |text|
    decreases i - start
  {
    if i == start then Initial else Step(text, open, i - 1, StateAt(text, open, start, i - 1))
  }

  /** Position `i` is a bracket-counting step after which the counter reads zero: the scan stops there. */
  predicate ZeroAt(text: string, open: char, start: nat, i: nat)
    requires start <= i < |text|
  {
    var st := StateAt(text, open, start, i);
    !st.inString && !IsQuote(text[i]) && StateAt(text, open, start, i + 1).count == 0
  }

  /**
   * The scan loop: `-1` when the counter never returns to zero, else one past
   * the first position where it does.
   */
  method ScanBalanced(text: string, open: char, start: nat) returns (endIdx: int)
    requires IsOpenBracket(open)
    requires start <= |text|
    ensures endIdx == -1 <==> forall j :: start <= j < |text| ==> !ZeroAt(text, open, start, j)
    ensures endIdx != -1 ==>
      start < endIdx <= |text| && ZeroAt(text, open, start, endIdx - 1) &&
      forall j :: start <= j < endIdx - 1 ==> !ZeroAt(text, open, start, j)
  {
    var close := CloseOf(open);
    var braceCount := 0;
    var inString := false;
    var stringChar := ' ';
    endIdx := -1;
    var i := start;
    while i < |text|
      invariant start <= i <= |text|
      invariant ScanState(braceCount, inString, stringChar) == StateAt(text, open, start, i)
      invariant forall j :: start <= j < i ==> !ZeroAt(text, open, start, j)
      invariant endIdx == -1
    {
      var c := text[i];
      if inString {
        if c == stringChar && !(i > 0 && text[i - 1] == '\\') {
          inString := false;
        }
        i := i + 1;
        continue;
      }
      if c == '"' || c == '\'' {
        inString := true;
        stringChar := c;
        i := i + 1;
        continue;
      }
      if c == open {
        braceCount := braceCount + 1;
      }
      if c == close {
        braceCount := braceCount - 1;
      }
      assert ScanState(braceCount, inString, stringChar) == StateAt(text, open, start, i + 1);
      if braceCount == 0 {
        assert ZeroAt(text, open, start, i);
        endIdx := i + 1;
        return;
      }
      i := i + 1;
    }
  }

  /**
   * Started on an open bracket, the counter stays positive until the scan
   * stops, so the stop is at the matching close bracket and the brackets
   * outside strings balance over the cut.
   */
  lemma {:induction false} ScanPositive(text: string, open: char, start: nat, i: nat)
    requires IsOpenBracket(open) && start < |text| && text[start] == open
    requires start < i <= |text|
    requires forall j :: start <= j < i ==> !ZeroAt(text, open, start, j)
    ensures StateAt(text, open, start, i).count >= 1
    decreases i
  {
    if i > start + 1 {
      ScanPositive(text, open, start, i - 1);
      assert !ZeroAt(text, open, start, i - 1);
    }
  }

  lemma ScanMatch(text: string, open: char, start: nat, endIdx: nat)
    requires IsOpenBracket(open) && start < |text| && text[start] == open
    requires start < endIdx <= |text| && ZeroAt(text, open, start, endIdx - 1)
    requires forall j :: start <= j < endIdx - 1 ==> !ZeroAt(text, open, start, j)
    ensures text[endIdx - 1] == CloseOf(open)
    ensures StateAt(text, open, start, endIdx).count == 0
    ensures forall i :: start < i < endIdx ==> StateAt(text, open, start, i).count >= 1
  {
    if endIdx - 1 > start {
      ScanPositive(text, open, start, endIdx - 1);
    }
    forall i | start < i < endIdx
      ensures StateAt(text, open, start, i).count >= 1
    {
      ScanPositive(text, open, start, i);
    }
  }

  /** A character the scan cannot tell from any other: everything but the two brackets, the quotes and the backslash. */
  function Skeleton(c: char, open: char): char {
    if c == open || c == CloseOf(open) || IsQuote(c) || c == '\\' then c else '.'
  }

  function SkeletonOf(text: string, open: char): (r: string)
    ensures |r| == |text| && forall i :: 0 <= i < |text| ==> r[i] == Skeleton(text[i], open)
  {
    seq(|text|, i requires 0 <= i < |text| => Skeleton(text[i], open))
  }

  /**
   * The scan sees only the declared brackets, the quotes and backslashes:
   * replacing every other character (the other bracket kind included) leaves
   * every state unchanged.
   */
  lemma {:induction false} ScanSeesSkeleton(text: string, open: char, start: nat, i: nat)
    requires IsOpenBracket(open) && start <= i <= |text|
    ensures StateAt(text, open, start, i) == StateAt(SkeletonOf(text, open), open, start, i)
    ensures StateAt(text, open, start, i).inString ==> IsQuote(StateAt(text, open, start, i).quote)
    decreases i
  {
    if i > start {
      ScanSeesSkeleton(text, open, start, i - 1);
      var sk := SkeletonOf(text, open);
      assert sk[i - 1] == Skeleton(text[i - 1], open);
      assert i - 1 > 0 ==> (sk[i - 2] == '\\' <==> text[i - 2] == '\\');
    }
  }

  /** `indexOf(openChar, startIdx)`: the first open bracket at or after the declaration. */
  function OpenIndex(text: string, open: char, declStart: nat): (s: nat)
    requires declStart <= |text| && open in text[declStart..]
    ensures declStart <= s < |text| && text[s] == open
    ensures forall j :: declStart <= j < s ==> text[j] != open
  {
    var k :| 0 <= k < |text[declStart..]| && text[declStart..][k] == open;
    assert text[declStart + k] == open;
    FindFrom(text, c => c == open, declStart).value
  }

  /**
   * The cut-out `data` literal: from the first open bracket at or after the
   * declaration to the scan's end; `None` for the `data_object_not_closed` error.
   * On success the literal is `text[s..e]`, where `s` is that open bracket and
   * `e - 1` the first position where the counter returns to zero; the counter
   * stays positive strictly inside, so the brackets outside strings balance.
   */
  method ExtractDataLiteral(text: string, open: char, declStart: nat) returns (r: Option<string>)
    requires IsOpenBracket(open)
    requires declStart <= |text| && open in text[declStart..]
    ensures r.None? <==> forall j :: OpenIndex(text, open, declStart) <= j < |text| ==> !ZeroAt(text, open, OpenIndex(text, open, declStart), j)
    ensures r.Some? ==> 2 <= |r.value| && r.value[0] == open && r.value[|r.value| - 1] == CloseOf(open)
    ensures r.Some? ==>
      var s := OpenIndex(text, open, declStart);
      var e := s + |r.value|;
      && 1 <= |r.value| && e <= |text| && r.value == text[s..e]
      && ZeroAt(text, open, s, e - 1)
      && (forall j :: s <= j < e - 1 ==> !ZeroAt(text, open, s, j))
      && StateAt(text, open, s, e).count == 0
      && (forall i :: s < i < e ==> StateAt(text, open, s, i).count >= 1)
  {
    var start := OpenIndex(text, open, declStart);
    var endIdx := ScanBalanced(text, open, start);
    if endIdx == -1 {
      r := None;
    } else {
      ScanMatch(text, open, start, endIdx);
      r := Some(text[start..endIdx]);
    }
  }

  // ---------------------------------------------------------------------
  // Artboard lookup
  // ---------------------------------------------------------------------

  /** An artboard of the parsed `data` object; `slug` is `None` when it is not a string. */
  datatype Artboard = Artboard(slug: Option<string>, width: Val, height: Val)

  /** `sketchId.replace(/^s/i, '')`. */
  function SketchNum(id: string): (r: string)
    ensures r == id || (id != [] && (id[0] == 's' || id[0] == 'S') && r == id[1..])
    ensures id != [] && (id[0] == 's' || id[0] == 'S') ==> r == id[1..]
  {
    if id != [] && (id[0] == 's' || id[0] == 'S') then id[1..] else id
  }

  predicate SlugMatches(a: Artboard, id: string) {
    a.slug.Some? && (Contains(a.slug.value, id) || Contains(a.slug.value, SketchNum(id)))
  }

  /** The index of the artboard for `id`, `None` for the 404 case (no array, or no match). */
  function FindArtboard(artboards: Option<seq<Artboard>>, id: string): (r: Option<nat>)
    ensures artboards.None? ==> r.None?
    ensures artboards.Some? && r.Some? ==>
      r.value < |artboards.value| && SlugMatches(artboards.value[r.value], id) &&
      forall j :: 0 <= j < r.value ==> !SlugMatches(artboards.value[j], id)
    ensures artboards.Some? && r.None? ==> forall j :: 0 <= j < |artboards.value| ==> !SlugMatches(artboards.value[j], id)
  {
    if artboards.None? then None else Find(artboards.value, a => SlugMatches(a, id))
  }

  /** The id-or-number test is the number test alone: a slug holding the id also holds its suffix. */
  lemma SlugMatchesNumber(a: Artboard, id: string)
    ensures SlugMatches(a, id) <==> a.slug.Some? && Contains(a.slug.value, SketchNum(id))
  {
    if a.slug.Some? && Contains(a.slug.value, id) && SketchNum(id) != id {
      var s := a.slug.value;
      var i := ContainsWitness(s, id);
      assert s[i + 1..i + 1 + |id[1..]|] == id[1..];
      ContainsAt(s, id[1..], i + 1);
    }
  }
}
