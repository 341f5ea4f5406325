/** utils/model_naming.py: model ids, the name tokens made from them, and the CI names that
    carry the tokens between two repositories. The empty impl "" stands for no impl. */
module ModelNaming {
  import opened PyStrings

  const IMPL_SEP := '@'

  // ----- Escape and unescape ----------------------------------------------------------------

  function SlugifyModelId(id: string): string {
    if id == "" then "" else Replace(Replace(Replace(id, "/", "__"), "\\", "__"), " ", "_")
  }

  function UnslugifyModelId(slug: string): string {
    if slug == "" then "" else Replace(slug, "__", "/")
  }

  /** What one character of an id becomes. */
  function Escape(c: char): string {
    if c == '/' || c == '\\' then "__" else if c == ' ' then "_" else [c]
  }

  lemma EscapeChar(c: char)
    ensures SlugifyModelId([c]) == Escape(c)
  {
    ReplaceCharStep([c], '/', "__");
    if c == '/' {
      assert Replace("__", "\\", "__") == "__" by {
        ReplaceCharStep("__", '\\', "__");
        ReplaceCharStep("_", '\\', "__");
        assert "__"[1..] == "_";
      }
      assert Replace("__", " ", "_") == "__" by {
        ReplaceCharStep("__", ' ', "_");
        ReplaceCharStep("_", ' ', "_");
        assert "__"[1..] == "_";
      }
      assert "__" + "" == "__";
    } else {
      assert Replace([c], "/", "__") == [c];
      ReplaceCharStep([c], '\\', "__");
      if c == '\\' {
        assert Replace("__", " ", "_") == "__" by {
          ReplaceCharStep("__", ' ', "_");
          ReplaceCharStep("_", ' ', "_");
          assert "__"[1..] == "_";
        }
        assert "__" + "" == "__";
      } else {
        assert Replace([c], "\\", "__") == [c];
        ReplaceCharStep([c], ' ', "_");
      }
    }
  }

  /** Escaping works character by character, so it distributes over concatenation. */
  lemma SlugDistributes(a: string, b: string)
    ensures SlugifyModelId(a + b) == SlugifyModelId(a) + SlugifyModelId(b)
  {
    if a == "" {
      assert a + b == b;
    } else if b == "" {
      assert a + b == a;
    } else {
      hide Replace;
      ReplaceCharDistributes(a, b, '/', "__");
      ReplaceCharDistributes(Replace(a, "/", "__"), Replace(b, "/", "__"), '\\', "__");
      ReplaceCharDistributes(Replace(Replace(a, "/", "__"), "\\", "__"), Replace(Replace(b, "/", "__"), "\\", "__"),
          ' ', "_");
    }
  }

  lemma SlugStep(x: string)
    requires x != ""
    ensures SlugifyModelId(x) == Escape(x[0]) + SlugifyModelId(x[1..])
  {
    hide SlugifyModelId;
    assert x == [x[0]] + x[1..];
    SlugDistributes([x[0]], x[1..]);
    EscapeChar(x[0]);
  }

  /** Slugs hold no separator, backslash or blank. */
  predicate Clean(s: string) {
    '/' !in s && '\\' !in s && ' ' !in s
  }

  lemma {:induction false} SlugIsClean(x: string)
    ensures Clean(SlugifyModelId(x))
  {
    if x != "" {
      SlugStep(x);
      SlugIsClean(x[1..]);
    }
  }

  lemma {:induction false} CleanIsFixed(s: string)
    requires Clean(s)
    ensures SlugifyModelId(s) == s
  {
    if s != "" {
      SlugStep(s);
      assert s == [s[0]] + s[1..];
      CleanIsFixed(s[1..]);
    }
  }

  /** Escaping a token again changes nothing. */
  lemma SlugIdempotent(x: string)
    ensures SlugifyModelId(SlugifyModelId(x)) == SlugifyModelId(x)
  {
    SlugIsClean(x);
    CleanIsFixed(SlugifyModelId(x));
  }

  /** The ids the escape can be undone for. */
  predicate Reversible(x: string) {
    '\\' !in x && ' ' !in x && Unambiguous(x)
  }

  /** No underscore is followed by another or by a separator. */
  predicate Unambiguous(x: string) {
    forall i :: 0 <= i < |x| - 1 && x[i] == '_' ==> x[i + 1] != '_' && x[i + 1] != '/'
  }

  lemma UnslugStep(s: string)
    requires s != ""
    ensures UnslugifyModelId(s) == if |s| >= 2 && s[0] == '_' && s[1] == '_'
                                   then "/" + UnslugifyModelId(s[2..])
                                   else [s[0]] + UnslugifyModelId(s[1..])
  {
    assert Replace("", "__", "/") == "";
    if |s| == 1 {
      assert [s[0]] + "" == s;
    } else {
      assert s[..2] == [s[0], s[1]];
      assert s[..2] == "__" <==> s[0] == '_' && s[1] == '_';
    }
  }

  lemma {:induction false} UnslugIsUnambiguous(s: string)
    requires Clean(s)
    ensures '\\' !in UnslugifyModelId(s) && ' ' !in UnslugifyModelId(s)
    ensures Unambiguous(UnslugifyModelId(s))
    ensures s != "" ==> UnslugifyModelId(s) != ""
    ensures s != "" && (|s| == 1 || s[0] != '_' || s[1] != '_') ==> UnslugifyModelId(s)[0] == s[0]
    decreases |s|
  {
    if s != "" {
      UnslugStep(s);
      if |s| >= 2 && s[0] == '_' && s[1] == '_' {
        UnslugIsUnambiguous(s[2..]);
      } else {
        UnslugIsUnambiguous(s[1..]);
      }
    }
  }

  lemma {:induction false} ReversibleRoundTrip(x: string)
    requires Reversible(x)
    ensures UnslugifyModelId(SlugifyModelId(x)) == x
  {
    if x != "" {
      var rest := x[1..];
      var s := SlugifyModelId(x);
      assert x == [x[0]] + rest;
      SlugStep(x);
      ReversibleRoundTrip(rest);
      UnslugStep(s);
      if x[0] == '/' {
        assert s[2..] == SlugifyModelId(rest);
      } else {
        assert s[1..] == SlugifyModelId(rest);
        if rest != "" {
          SlugStep(rest);
        }
      }
    }
  }

  /** Unescaping gives an id back iff it holds no backslash, no blank, no double underscore and
      no underscore before a separator. */
  lemma RoundTripIff(x: string)
    ensures UnslugifyModelId(SlugifyModelId(x)) == x <==> Reversible(x)
  {
    SlugIsClean(x);
    UnslugIsUnambiguous(SlugifyModelId(x));
    if Reversible(x) {
      ReversibleRoundTrip(x);
    }
  }

  /** Distinct reversible ids have distinct tokens. */
  lemma SlugInjective(x: string, y: string)
    requires Reversible(x) && Reversible(y) && SlugifyModelId(x) == SlugifyModelId(y)
    ensures x == y
  {
    RoundTripIff(x);
    RoundTripIff(y);
  }
}
