/** The category document: its schema constraints and the slug its save hook derives from the name. */
module CategoryModel {
  import opened Common
  import opened Text

  /** The characters a slug can be made of: lower-case ASCII letters, digits, `_` and `-`. */
  predicate IsSlugChar(c: char) {
    ('a' <= c <= 'z') || ('0' <= c <= '9') || c == '_' || c == '-'
  }

  predicate IsSlugText(s: string) {
    forall i | 0 <= i < |s| :: IsSlugChar(s[i])
  }

  predicate AllWordChars(s: string) {
    forall i | 0 <= i < |s| :: IsWordChar(s[i])
  }

  /** `replace(/\s+/g, '-')`: every maximal run of white space becomes a single hyphen.
      `inRun` says whether the character before `s` was white space already replaced. */
  function Dashed(s: string, inRun: bool): string
  {
    if s == [] then []
    else if IsSpace(s[0]) then (if inRun then [] else ['-']) + Dashed(s[1..], true)
    else [s[0]] + Dashed(s[1..], false)
  }

  function DashSpaces(s: string): string {
    Dashed(s, false)
  }

  /** `replace(/[^\w-]+/g, '')`: every character other than a word character or a hyphen is deleted. */
  function KeepSlugChars(s: string): string
  {
    if s == [] then []
    else (if IsWordChar(s[0]) || s[0] == '-' then [s[0]] else []) + KeepSlugChars(s[1..])
  }

  /** The slug of a category name: lower-cased, white-space runs made hyphens, the rest stripped. */
  function Slug(name: string): string {
    KeepSlugChars(DashSpaces(Lower(name)))
  }

  lemma NoUpperSuffix(s: string, k: nat)
    requires NoUpper(s) && k <= |s|
    ensures NoUpper(s[k..])
  {
    forall i | 0 <= i < |s| - k ensures !IsUpper(s[k..][i]) { assert s[k..][i] == s[k + i]; }
  }

  lemma {:induction false} DashedNoUpper(s: string, inRun: bool)
    requires NoUpper(s)
    ensures NoUpper(Dashed(s, inRun))
  {
    if s != [] {
      NoUpperSuffix(s, 1);
      DashedNoUpper(s[1..], IsSpace(s[0]));
    }
  }

  lemma {:induction false} KeepSlugCharsAlphabet(s: string)
    requires NoUpper(s)
    ensures IsSlugText(KeepSlugChars(s))
  {
    if s != [] {
      assert NoUpper(s[1..]) by {
        forall i | 0 <= i < |s| - 1 ensures !IsUpper(s[1..][i]) { assert s[1..][i] == s[i + 1]; }
      }
      KeepSlugCharsAlphabet(s[1..]);
      assert !IsUpper(s[0]);
    }
  }

  /** Every character of a slug is a lower-case letter, a digit, `_` or `-`: no white space, no upper case. */
  lemma SlugAlphabet(name: string)
    ensures IsSlugText(Slug(name))
  {
    DashedNoUpper(Lower(name), false);
    KeepSlugCharsAlphabet(DashSpaces(Lower(name)));
  }

  lemma {:induction false} DashedOfSlugText(s: string)
    requires IsSlugText(s)
    ensures Dashed(s, false) == s
  {
    if s != [] {
      assert IsSlugChar(s[0]);
      assert IsSlugText(s[1..]) by {
        forall i | 0 <= i < |s| - 1 ensures IsSlugChar(s[1..][i]) { assert s[1..][i] == s[i + 1]; }
      }
      DashedOfSlugText(s[1..]);
      assert s == [s[0]] + s[1..];
    }
  }

  lemma {:induction false} KeepSlugCharsOfSlugText(s: string)
    requires IsSlugText(s)
    ensures KeepSlugChars(s) == s
  {
    if s != [] {
      assert IsSlugChar(s[0]);
      assert IsSlugText(s[1..]) by {
        forall i | 0 <= i < |s| - 1 ensures IsSlugChar(s[1..][i]) { assert s[1..][i] == s[i + 1]; }
      }
      KeepSlugCharsOfSlugText(s[1..]);
      assert s == [s[0]] + s[1..];
    }
  }

  /** Deriving the slug of a slug changes nothing. */
  lemma SlugIdempotent(name: string)
    ensures Slug(Slug(name)) == Slug(name)
  {
    var s := Slug(name);
    SlugAlphabet(name);
    assert Lower(s) == s;
    DashedOfSlugText(s);
    KeepSlugCharsOfSlugText(s);
  }

  lemma {:induction false} DashedWord(w: string, inRun: bool, rest: string)
    requires AllWordChars(w) && w != []
    ensures Dashed(w + rest, inRun) == w + Dashed(rest, false)
  {
    assert IsWordChar(w[0]);
    assert (w + rest)[0] == w[0];
    assert (w + rest)[1..] == w[1..] + rest;
    if |w| == 1 {
      assert w[1..] + rest == rest;
    } else {
      assert AllWordChars(w[1..]) by {
        forall i | 0 <= i < |w| - 1 ensures IsWordChar(w[1..][i]) { assert w[1..][i] == w[i + 1]; }
      }
      DashedWord(w[1..], false, rest);
    }
    assert w == [w[0]] + w[1..];
  }

  lemma {:induction false} DashedSpaces(ws: string, inRun: bool, rest: string)
    requires ws != [] && forall i | 0 <= i < |ws| :: IsSpace(ws[i])
    ensures Dashed(ws + rest, inRun) == (if inRun then [] else ['-']) + Dashed(rest, true)
  {
    assert (ws + rest)[0] == ws[0];
    assert (ws + rest)[1..] == ws[1..] + rest;
    if |ws| == 1 {
      assert ws[1..] + rest == rest;
    } else {
      DashedSpaces(ws[1..], true, rest);
    }
  }

  lemma {:induction false} KeepSlugCharsConcat(a: string, b: string)
    ensures KeepSlugChars(a + b) == KeepSlugChars(a) + KeepSlugChars(b)
  {
    if a == [] {
      assert a + b == b;
    } else {
      var c := if IsWordChar(a[0]) || a[0] == '-' then [a[0]] else [];
      assert (a + b)[0] == a[0];
      assert (a + b)[1..] == a[1..] + b;
      assert KeepSlugChars(a + b) == c + KeepSlugChars(a[1..] + b);
      assert KeepSlugChars(a) == c + KeepSlugChars(a[1..]);
      KeepSlugCharsConcat(a[1..], b);
      assert c + (KeepSlugChars(a[1..]) + KeepSlugChars(b)) == (c + KeepSlugChars(a[1..])) + KeepSlugChars(b);
    }
  }

  lemma LowerWord(a: string)
    requires AllWordChars(a)
    ensures AllWordChars(Lower(a)) && IsSlugText(Lower(a))
  {
  }

  /** A run of white space before a word becomes one hyphen. */
  lemma DashedRun(ws: string, w: string)
    requires ws != [] && forall i | 0 <= i < |ws| :: IsSpace(ws[i])
    requires AllWordChars(w) && w != []
    ensures Dashed(ws + w, false) == ['-'] + w
  {
    DashedSpaces(ws, false, w);
    DashedWord(w, true, []);
    assert w + [] == w;
  }

  /** Two words joined by one run of white space are joined by one hyphen. */
  lemma DashedRunBetweenWords(a: string, ws: string, b: string)
    requires AllWordChars(a) && AllWordChars(b) && a != [] && b != []
    requires ws != [] && forall i | 0 <= i < |ws| :: IsSpace(ws[i])
    ensures DashSpaces(Lower(a + ws + b)) == Lower(a) + (['-'] + Lower(b))
  {
    var la, lb := Lower(a), Lower(b);
    LowerWord(a);
    LowerWord(b);
    LowerConcat(a, ws + b);
    LowerConcat(ws, b);
    assert Lower(ws) == ws;
    assert Lower(a + ws + b) == la + (ws + lb) by { assert a + ws + b == a + (ws + b); }
    DashedWord(la, false, ws + lb);
    DashedRun(ws, lb);
  }

  lemma SpaceRunBetweenWords(a: string, ws: string, b: string)
    requires AllWordChars(a) && AllWordChars(b) && a != [] && b != []
    requires ws != [] && forall i | 0 <= i < |ws| :: IsSpace(ws[i])
    ensures Slug(a + ws + b) == Lower(a) + ['-'] + Lower(b)
  {
    var la, lb := Lower(a), Lower(b);
    DashedRunBetweenWords(a, ws, b);
    LowerWord(a);
    LowerWord(b);
    KeepSlugCharsConcat(la, ['-'] + lb);
    KeepSlugCharsOfSlugText(la);
    KeepSlugCharsOfSlugText(['-'] + lb);
    assert la + (['-'] + lb) == la + ['-'] + lb;
  }

  /** A symbol between two single spaces: each space becomes its own hyphen, the symbol stays in between. */
  lemma DashedAroundSymbol(x: char, w: string)
    requires !IsSpace(x) && AllWordChars(w) && w != []
    ensures Dashed([' '] + ([x] + ([' '] + w)), false) == ['-'] + ([x] + (['-'] + w))
  {
    var r := [x] + ([' '] + w);
    DashedSpaces([' '], false, r);
    assert r[0] == x && r[1..] == [' '] + w;
    assert Dashed(r, true) == [x] + Dashed([' '] + w, false);
    DashedSpaces([' '], false, w);
    DashedWord(w, true, []);
    assert w + [] == w;
  }

  /** Stripping deletes the symbol and keeps both hyphens. */
  lemma KeepAroundSymbol(x: char, w: string)
    requires !IsWordChar(x) && x != '-' && IsSlugText(w)
    ensures KeepSlugChars(['-'] + ([x] + (['-'] + w))) == ['-', '-'] + w
  {
    KeepSlugCharsConcat(['-'], [x] + (['-'] + w));
    KeepSlugCharsConcat([x], ['-'] + w);
    KeepSlugCharsOfSlugText(['-'] + w);
    assert KeepSlugChars([x]) == [];
    assert KeepSlugChars(['-']) == ['-'];
  }

  /** Hyphens are not collapsed: a symbol standing alone between two spaces leaves two hyphens. */
  lemma SymbolBetweenSpaces(a: string, x: char, b: string)
    requires AllWordChars(a) && AllWordChars(b) && a != [] && b != []
    requires !IsWordChar(x) && !IsSpace(x) && x != '-'
    ensures Slug(a + [' ', x, ' '] + b) == Lower(a) + ['-', '-'] + Lower(b)
  {
    var la, lb := Lower(a), Lower(b);
    LowerWord(a);
    LowerWord(b);
    var tail := [' '] + ([x] + ([' '] + lb));
    LowerConcat(a + [' ', x, ' '], b);
    LowerConcat(a, [' ', x, ' ']);
    assert Lower([' ', x, ' ']) == [' ', x, ' '];
    assert la + [' ', x, ' '] + lb == la + tail;
    DashedWord(la, false, tail);
    DashedAroundSymbol(x, lb);
    var dashed := ['-'] + ([x] + (['-'] + lb));
    assert DashSpaces(la + tail) == la + dashed;
    KeepSlugCharsConcat(la, dashed);
    KeepSlugCharsOfSlugText(la);
    KeepAroundSymbol(x, lb);
    assert la + (['-', '-'] + lb) == la + ['-', '-'] + lb;
  }

  /** The catalogue's "Home & Garden" category gets the slug "home--garden". */
  lemma HomeAndGarden(name: string)
    requires name == "Home & Garden"
    ensures Slug(name) == "home--garden"
  {
    var home, garden := "Home", "Garden";
    assert name == home + [' ', '&', ' '] + garden;
    SymbolBetweenSpaces(home, '&', garden);
    assert Lower(home) == "home" && Lower(garden) == "garden";
  }

  /** A name with a letter, a digit or `_`. */
  predicate HasWordChar(s: string) {
    exists i | 0 <= i < |s| :: IsWordChar(s[i])
  }

  lemma LowerKeepsWordChar(s: string)
    requires HasWordChar(s)
    ensures HasWordChar(Lower(s))
  {
    var i :| 0 <= i < |s| && IsWordChar(s[i]);
    assert IsWordChar(Lower(s)[i]);
  }

  lemma {:induction false} DashedKeepsWordChar(s: string, inRun: bool)
    requires HasWordChar(s)
    ensures HasWordChar(Dashed(s, inRun))
  {
    var i :| 0 <= i < |s| && IsWordChar(s[i]);
    if i == 0 {
      assert !IsSpace(s[0]);
      assert Dashed(s, inRun)[0] == s[0];
    } else {
      assert IsWordChar(s[1..][i - 1]);
      DashedKeepsWordChar(s[1..], IsSpace(s[0]));
      var d := if IsSpace(s[0]) then (if inRun then [] else ['-']) else [s[0]];
      var j :| 0 <= j < |Dashed(s[1..], IsSpace(s[0]))| && IsWordChar(Dashed(s[1..], IsSpace(s[0]))[j]);
      assert Dashed(s, inRun) == d + Dashed(s[1..], IsSpace(s[0]));
      assert IsWordChar(Dashed(s, inRun)[|d| + j]);
    }
  }

  lemma {:induction false} KeepSlugCharsKeepsWordChar(s: string)
    requires HasWordChar(s)
    ensures KeepSlugChars(s) != []
  {
    var i :| 0 <= i < |s| && IsWordChar(s[i]);
    if i != 0 && !IsWordChar(s[0]) && s[0] != '-' {
      assert IsWordChar(s[1..][i - 1]);
      KeepSlugCharsKeepsWordChar(s[1..]);
    }
  }

  /** A name with a letter, a digit or `_` has a non-empty slug. */
  lemma WordNameHasSlug(name: string)
    requires HasWordChar(name)
    ensures Slug(name) != []
  {
    LowerKeepsWordChar(name);
    DashedKeepsWordChar(Lower(name), false);
    KeepSlugCharsKeepsWordChar(DashSpaces(Lower(name)));
  }

  /** Characters the slug deletes and that are not white space: neither word characters nor hyphens. */
  predicate Symbols(s: string) {
    forall i | 0 <= i < |s| :: !IsWordChar(s[i]) && !IsSpace(s[i]) && s[i] != '-'
  }

  lemma {:induction false} DashedOfSymbols(s: string, inRun: bool)
    requires Symbols(s)
    ensures Dashed(s, inRun) == s
  {
    if s != [] {
      assert !IsSpace(s[0]);
      assert Symbols(s[1..]) by {
        forall i | 0 <= i < |s| - 1 ensures !IsWordChar(s[1..][i]) && !IsSpace(s[1..][i]) && s[1..][i] != '-' {
          assert s[1..][i] == s[i + 1];
        }
      }
      DashedOfSymbols(s[1..], false);
      assert s == [s[0]] + s[1..];
    }
  }

  lemma {:induction false} KeepSlugCharsOfSymbols(s: string)
    requires Symbols(s)
    ensures KeepSlugChars(s) == []
  {
    if s != [] {
      assert !IsWordChar(s[0]) && s[0] != '-';
      assert Symbols(s[1..]) by {
        forall i | 0 <= i < |s| - 1 ensures !IsWordChar(s[1..][i]) && !IsSpace(s[1..][i]) && s[1..][i] != '-' {
          assert s[1..][i] == s[i + 1];
        }
      }
      KeepSlugCharsOfSymbols(s[1..]);
    }
  }

  lemma SymbolsTrimmed(name: string)
    requires Symbols(name)
    ensures Trim(name) == name
  {
    if name != [] {
      assert !IsSpace(name[0]) && !IsSpace(name[|name| - 1]);
    }
    TrimmedTrimsToItself(name);
  }

  lemma SymbolsHaveNoSlug(name: string)
    requires Symbols(name)
    ensures Slug(name) == []
  {
    assert NoUpper(name) by {
      forall k | 0 <= k < |name| ensures !IsUpper(name[k]) {
        assert !IsWordChar(name[k]);
      }
    }
    LowerOfNoUpper(name);
    DashedOfSymbols(name, false);
    KeepSlugCharsOfSymbols(name);
  }

  /** A name of symbols only, such as "&&&", survives trimming but has an empty slug. */
  lemma SymbolsOnlyName(name: string)
    requires Symbols(name)
    ensures Trim(name) == name && Slug(name) == []
  {
    SymbolsTrimmed(name);
    SymbolsHaveNoSlug(name);
  }

  /** A category document. `slug` is lower-cased by its setter; `name` and `description` are trimmed. */
  class Category {
    var name: string
    var slug: string
    var description: Option<string>
    var image: Option<string>
    var isActive: bool

    /** What the setters keep at all times: the name trimmed, the slug lower-case. */
    ghost predicate Formed()
      reads this
    {
      Trimmed(name) && Lower(slug) == slug
    }

    /** The schema's constraints: name and slug required, name trimmed, slug lower-case. */
    ghost predicate Valid()
      reads this
    {
      Formed() && name != [] && slug != []
    }

    /**
     * A new document as `Category.create` builds it from the request body, before validation and the save hook.
     * An absent name is taken as the empty string; the required validator refuses both alike.
     */
    constructor (name: Option<string>, description: Option<string>, image: Option<string>)
      ensures Formed()
      ensures this.name == Trim(name.GetOr("")) && slug == []
      ensures this.description == (if description.Some? then Some(Trim(description.value)) else None)
      ensures this.image == image && isActive
    {
      TrimmedIsFixed(name.GetOr(""));
      this.name := Trim(name.GetOr(""));
      this.slug := [];
      this.description := if description.Some? then Some(Trim(description.value)) else None;
      this.image := image;
      this.isActive := true;
    }

    /** The `required` validators of name and slug; an empty string counts as missing. */
    method Validate() returns (r: Result<()>)
      ensures r.Ok? <==> name != [] && slug != []
      ensures r.Err? ==> r == Err(Thrown(ValidationFailed))
    {
      if name == [] || slug == [] {
        return Err(Thrown(ValidationFailed));
      }
      return Ok(());
    }

    /** The pre-save hook: the slug is derived again only when the name was modified. */
    method PreSave(nameModified: bool)
      requires Formed()
      modifies this`slug
      ensures Formed() && name == old(name) && isActive == old(isActive)
      ensures slug == if nameModified then Slug(name) else old(slug)
      ensures nameModified ==> IsSlugText(slug) && Lower(slug) == slug
    {
      if nameModified {
        SlugAlphabet(name);
        slug := Lower(Slug(name));
      }
    }

    /** `save()` as it runs: the validators first, then the pre-save hook. */
    method Save(nameModified: bool) returns (r: Result<()>)
      requires Formed()
      modifies this`slug
      ensures Formed()
      ensures r.Ok? <==> name != [] && old(slug) != []
      ensures r.Err? ==> r == Err(Thrown(ValidationFailed)) && slug == old(slug)
      ensures r.Ok? ==> slug == if nameModified then Slug(name) else old(slug)
    {
      r := Validate();
      if r.Ok? {
        PreSave(nameModified);
      }
    }

    /** `save()` with the slug derived before the validators run, as a `pre('validate')` hook would. */
    method SaveSlugFirst(nameModified: bool) returns (r: Result<()>)
      requires Formed()
      modifies this`slug
      ensures Formed() && name == old(name) && isActive == old(isActive)
      ensures slug == if nameModified then Slug(name) else old(slug)
      ensures r.Ok? <==> Valid()
      ensures r.Ok? <==> name != [] && slug != []
      ensures r.Err? ==> r == Err(Thrown(ValidationFailed))
    {
      PreSave(nameModified);
      r := Validate();
    }
  }

  /**
   * `Category.create({ name, description, image })` as written: the body carries no slug and the hook that
   * derives it runs only after the validators, so the required slug is always missing and creation is refused.
   */
  method Create(name: Option<string>, description: Option<string>, image: Option<string>) returns (r: Result<Category>)
    ensures r == Err(Thrown(ValidationFailed))
  {
    var c := new Category(name, description, image);
    var saved := c.Save(true);
    if saved.Err? {
      return Err(saved.error);
    }
    r := Ok(c);
  }

  /** Creation with the slug derived first: refused exactly when the trimmed name or its slug is empty. */
  method CreateSlugFirst(name: Option<string>, description: Option<string>, image: Option<string>) returns (r: Result<Category>)
    ensures var n := Trim(name.GetOr(""));
      && (r.Ok? <==> n != [] && Slug(n) != [])
      && (r.Err? ==> r == Err(Thrown(ValidationFailed)))
      && (r.Ok? ==> r.value.Valid() && r.value.name == n && r.value.slug == Slug(n) && r.value.isActive)
  {
    ghost var n := Trim(name.GetOr(""));
    var c := new Category(name, description, image);
    var saved := c.SaveSlugFirst(true);
    if saved.Err? {
      assert !(n != [] && Slug(n) != []);
      r := Err(saved.error);
    } else {
      assert c.Valid() && c.name == n && c.slug == Slug(n) && c.isActive;
      r := Ok(c);
    }
  }
}
