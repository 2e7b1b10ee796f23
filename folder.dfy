/** The series folder name chosen by `Extract.create`: the stored
    `serie.folder` when it is set, else the title with every character that
    is neither a word character nor white space replaced by `_`, and then
    every white-space character replaced by `-`. */
module Folder {
  import opened Wrappers
  import opened Strings

  /** `s.replace(/[^\w\s]/g, '_')`. */
  function ReplaceSymbols(s: string): (r: string)
  {
    if |s| == 0 then []
    else [if IsWordChar(s[0]) || IsSpace(s[0]) then s[0] else '_'] + ReplaceSymbols(s[1..])
  }

  /** `s.replace(/\s/g, '-')`. */
  function ReplaceSpaces(s: string): (r: string)
  {
    if |s| == 0 then []
    else [if IsSpace(s[0]) then '-' else s[0]] + ReplaceSpaces(s[1..])
  }

  /** The title with both replacements applied, in that order. */
  function Sanitize(title: string): string
  {
    ReplaceSpaces(ReplaceSymbols(title))
  }

  /** `serie.folder || <sanitised title>`: an absent or empty stored name
      falls back to the sanitised title. */
  function FolderFor(saved: Option<string>, title: string): string
  {
    if saved.Some? && saved.value != "" then saved.value else Sanitize(title)
  }

  /** The characters a sanitised name is made of. */
  predicate SafeChar(c: char)
  {
    IsWordChar(c) || c == '-'
  }

  lemma {:induction false} ReplaceSymbolsAt(s: string)
    ensures |ReplaceSymbols(s)| == |s|
    ensures forall i :: 0 <= i < |s| ==>
      ReplaceSymbols(s)[i] == if IsWordChar(s[i]) || IsSpace(s[i]) then s[i] else '_'
  {
    if |s| > 0 {
      ReplaceSymbolsAt(s[1..]);
    }
  }

  lemma {:induction false} ReplaceSpacesAt(s: string)
    ensures |ReplaceSpaces(s)| == |s|
    ensures forall i :: 0 <= i < |s| ==> ReplaceSpaces(s)[i] == if IsSpace(s[i]) then '-' else s[i]
  {
    if |s| > 0 {
      ReplaceSpacesAt(s[1..]);
    }
  }

  /** The sanitised title has the title's length; position by position, a
      word character is kept, white space becomes `-` and anything else
      becomes `_`. */
  lemma SanitizeAt(title: string)
    ensures |Sanitize(title)| == |title|
    ensures forall i :: 0 <= i < |title| ==>
      Sanitize(title)[i] == if IsWordChar(title[i]) then title[i] else if IsSpace(title[i]) then '-' else '_'
  {
    ReplaceSymbolsAt(title);
    ReplaceSpacesAt(ReplaceSymbols(title));
  }

  /** A sanitised title holds only word characters and `-`: no white space,
      no path separator and no dot, so `path.join(directory, folder)` stays
      a direct child of the library directory. */
  lemma SanitizeSafe(title: string)
    ensures forall i :: 0 <= i < |Sanitize(title)| ==> SafeChar(Sanitize(title)[i])
    ensures forall i :: 0 <= i < |Sanitize(title)| ==> !IsSpace(Sanitize(title)[i])
    ensures '/' !in Sanitize(title) && '\\' !in Sanitize(title) && '.' !in Sanitize(title)
  {
    SanitizeAt(title);
    var r := Sanitize(title);
    assert forall i :: 0 <= i < |r| ==> SafeChar(r[i]);
    forall i | 0 <= i < |r|
      ensures r[i] != '/' && r[i] != '\\' && r[i] != '.' && !IsSpace(r[i])
    {
      assert SafeChar(r[i]);
    }
  }

  /** A title made of word characters only is its own folder name. */
  lemma SanitizeWord(title: string)
    requires forall i :: 0 <= i < |title| ==> IsWordChar(title[i])
    ensures Sanitize(title) == title
  {
    SanitizeAt(title);
  }

  /** The chosen name is stored back into `serie.folder`; a later call keeps
      it, whatever the title has become, unless it was empty. */
  lemma FolderStable(saved: Option<string>, title: string, later: string)
    requires FolderFor(saved, title) != ""
    ensures FolderFor(Some(FolderFor(saved, title)), later) == FolderFor(saved, title)
  {
  }

  /** Without a stored name, the folder is the sanitised title and so is
      made of safe characters only. */
  lemma FolderFallback(saved: Option<string>, title: string)
    requires saved.None? || saved.value == ""
    ensures forall i :: 0 <= i < |FolderFor(saved, title)| ==> SafeChar(FolderFor(saved, title)[i])
  {
    SanitizeSafe(title);
  }
}
