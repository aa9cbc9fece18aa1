// utils/dreamInterpreter.ts: the `DreamInterpreter` class. Its symbol table is
// fixed in the constructor; `interpretDream` asks the AI model for a reading,
// picks the table entries whose key occurs in the dream, and appends one line per
// found symbol under a bold header. The AI call is an input here.

module Symbols {
  import opened Text

  /** One entry of `dreamSymbols`: a key looked for in the dream and its meaning. */
  datatype Symbol = Symbol(key: string, meaning: string)

  /** The five entries the constructor installs, in insertion order (the order
      `Object.keys` reports them in). */
  function SymbolTable(): (t: seq<Symbol>)
    ensures |t| == 5
  {
    [ Symbol("uçmak", "Özgürlük, bağımsızlık ve başarı arzusunu temsil eder."),
      Symbol("düşmek", "Kontrol kaybı, güvensizlik veya hayattaki değişimlerden duyulan endişeyi gösterir."),
      Symbol("ev", "Kendinizi, iç dünyanızı ve güvenlik ihtiyacınızı temsil eder."),
      Symbol("su", "Duygusal durumunuzu ve bilinçaltınızı simgeler."),
      Symbol("araba", "Hayattaki yönünüzü ve ilerleme arzunuzu temsil eder.") ]
  }

  /** The keys, in table order. */
  const SymbolKeys: seq<string> := ["uçmak", "düşmek", "ev", "su", "araba"]

  function Keys(t: seq<Symbol>): (r: seq<string>)
    ensures |r| == |t| && forall i :: 0 <= i < |t| ==> r[i] == t[i].key
  {
    if t == [] then [] else [t[0].key] + Keys(t[1..])
  }

  lemma SymbolTableKeys()
    ensures Keys(SymbolTable()) == SymbolKeys
  {
  }

  /** The keys are distinct, non-empty and already lower case, so the
      `symbol.toLowerCase()` in the filter leaves them as they are. */
  lemma SymbolKeysLowerCase()
    ensures forall i, j :: 0 <= i < j < |SymbolKeys| ==> SymbolKeys[i] != SymbolKeys[j]
    ensures forall i :: 0 <= i < |SymbolKeys| ==> SymbolKeys[i] != [] && ToLower(SymbolKeys[i]) == SymbolKeys[i]
  {
    forall i, j | 0 <= i < j < |SymbolKeys| ensures SymbolKeys[i] != SymbolKeys[j] {
      assert SymbolKeys[i][0] != SymbolKeys[j][0];
    }
    forall i | 0 <= i < |SymbolKeys| ensures SymbolKeys[i] != [] && ToLower(SymbolKeys[i]) == SymbolKeys[i] {
      LowerKey(SymbolKeys[i]);
    }
  }

  /** A key of small ASCII and Turkish letters is its own lower case. */
  lemma LowerKey(k: string)
    requires forall j :: 0 <= j < |k| ==> 'a' <= k[j] <= 'z' || k[j] == 'ç' || k[j] == 'ş' || k[j] == 'ü'
    ensures ToLower(k) == k
  {
    forall j | 0 <= j < |k| ensures LowerChar(k[j]) == [k[j]] {
      LowerSmall(k[j]);
    }
    LowerFixed(k);
  }

  lemma LowerSmall(c: char)
    requires 'a' <= c <= 'z' || c == 'ç' || c == 'ş' || c == 'ü'
    ensures LowerChar(c) == [c]
  {
  }

  /** The filter's test: the lower-cased key occurs in the lower-cased dream. */
  predicate Mentions(dream: string, s: Symbol)
  {
    Contains(ToLower(dream), ToLower(s.key))
  }

  /** `Object.keys(dreamSymbols).filter(...)`: the entries the dream mentions, in
      table order. */
  function FoundSymbols(t: seq<Symbol>, dream: string): (r: seq<Symbol>)
    ensures |r| <= |t|
  {
    if t == [] then []
    else (if Mentions(dream, t[0]) then [t[0]] else []) + FoundSymbols(t[1..], dream)
  }

  /** A symbol is found exactly when it is in the table and the dream mentions it. */
  lemma {:induction false} FoundSymbolsMembers(t: seq<Symbol>, dream: string)
    ensures forall s :: s in FoundSymbols(t, dream) <==> s in t && Mentions(dream, s)
  {
    if t != [] {
      FoundSymbolsMembers(t[1..], dream);
      assert t == [t[0]] + t[1..];
    }
  }

  /** `a` is `b` with some elements deleted, the rest kept in order. */
  predicate SubsequenceOf(a: seq<Symbol>, b: seq<Symbol>)
    decreases |b|
  {
    a == [] || (b != [] && ((a[0] == b[0] && SubsequenceOf(a[1..], b[1..])) || SubsequenceOf(a, b[1..])))
  }

  /** The found symbols keep the table's order. */
  lemma {:induction false} FoundSymbolsInOrder(t: seq<Symbol>, dream: string)
    ensures SubsequenceOf(FoundSymbols(t, dream), t)
  {
    if t != [] {
      FoundSymbolsInOrder(t[1..], dream);
      var rest := FoundSymbols(t[1..], dream);
      if Mentions(dream, t[0]) {
        assert FoundSymbols(t, dream) == [t[0]] + rest;
        assert ([t[0]] + rest)[1..] == rest;
      } else {
        assert FoundSymbols(t, dream) == rest;
      }
    }
  }

  const SymbolsHeader := "\n**Rüyanızda " + "Tespit Edilen " + "Özel Semboller**\n"
  const InterpretError := "Rüya yorumlanırken bir hata oluştu."

  /** The line written for one found symbol: `- "key": meaning` and a line break. */
  function SymbolLine(s: Symbol): (r: string)
    ensures |r| == |s.key| + |s.meaning| + 7
  {
    "- \"" + s.key + "\": " + s.meaning + "\n"
  }

  /** The lines of the found symbols, in order; defined from the end, the way the
      loop appends them. */
  function Appendix(found: seq<Symbol>): string
  {
    if found == [] then [] else Appendix(found[..|found| - 1]) + SymbolLine(found[|found| - 1])
  }

  /** What `interpretDream` resolves to for AI text `ai`: the text and a blank
      line, then the header and the symbol lines when any symbol was found. */
  function Reading(ai: string, found: seq<Symbol>): string
  {
    ai + "\n\n" + (if found == [] then [] else SymbolsHeader + Appendix(found))
  }

  /** One more found symbol adds its line at the end of the appendix. */
  lemma AppendixStep(found: seq<Symbol>, i: nat)
    requires i < |found|
    ensures Appendix(found[..i + 1]) == Appendix(found[..i]) + SymbolLine(found[i])
  {
    assert found[..i + 1][..i] == found[..i];
  }

  lemma ReadingWithSymbols(ai: string, found: seq<Symbol>)
    requires found != []
    ensures Reading(ai, found) == ai + "\n\n" + SymbolsHeader + Appendix(found)
  {
  }

  /** Every found symbol's line occurs in the appendix. */
  lemma {:induction false} AppendixHasEveryLine(found: seq<Symbol>)
    ensures forall s :: s in found ==> Contains(Appendix(found), SymbolLine(s))
  {
    if found != [] {
      var init, last := found[..|found| - 1], found[|found| - 1];
      AppendixHasEveryLine(init);
      var a := Appendix(init);
      assert found == init + [last];
      forall s | s in found ensures Contains(a + SymbolLine(last), SymbolLine(s)) {
        if s == last {
          ContainsSuffix(a, SymbolLine(s));
        } else {
          ContainsAppend(SymbolLine(last), a, SymbolLine(s));
        }
      }
    }
  }

  /** The appendix is as long as its lines together: nothing is added between them. */
  lemma {:induction false} AppendixLength(found: seq<Symbol>)
    ensures |Appendix(found)| == SumLines(found)
  {
    if found != [] {
      AppendixLength(found[..|found| - 1]);
    }
  }

  function SumLines(found: seq<Symbol>): nat
  {
    if found == [] then 0 else SumLines(found[..|found| - 1]) + |SymbolLine(found[|found| - 1])|
  }

  /** A reading starts with the AI text and a blank line; with no symbol found it
      is nothing more, otherwise the header follows at once and every found
      symbol has its line. */
  lemma ReadingShape(ai: string, found: seq<Symbol>)
    ensures StartsWith(Reading(ai, found), ai + "\n\n")
    ensures found == [] <==> Reading(ai, found) == ai + "\n\n"
    ensures found != [] ==> StartsWith(Reading(ai, found)[|ai| + 2..], SymbolsHeader)
    ensures forall s :: s in found ==> Contains(Reading(ai, found), SymbolLine(s))
  {
    var p := ai + "\n\n";
    if found == [] {
      assert Reading(ai, found) == p + [];
      PrefixOfAppend(p, []);
    } else {
      var tail := SymbolsHeader + Appendix(found);
      assert Reading(ai, found) == p + tail;
      PrefixOfAppend(p, tail);
      PrefixOfAppend(SymbolsHeader, Appendix(found));
      AppendixHasEveryLine(found);
      forall s | s in found ensures Contains(p + tail, SymbolLine(s)) {
        ContainsAppend(SymbolsHeader, Appendix(found), SymbolLine(s));
        ContainsAppend(p, tail, SymbolLine(s));
      }
    }
  }

  class DreamInterpreter {
    /** `dreamSymbols`: set once by the constructor, never changed. The model
        handle is the AI input of `InterpretDream`. */
    const dreamSymbols: seq<Symbol>

    constructor ()
      ensures dreamSymbols == SymbolTable()
    {
      dreamSymbols := SymbolTable();
    }

    /** `interpretDream`: `ai` is the outcome of the AI analysis (`None` when it
        throws). A failure is rethrown with the method's own message; otherwise
        the appendix is built line by line onto the AI text. */
    method InterpretDream(dreamText: string, ai: Option<string>) returns (r: Result<string, string>)
      ensures ai.None? ==> r == Err(InterpretError)
      ensures ai.Some? ==> r == Ok(Reading(ai.value, FoundSymbols(dreamSymbols, dreamText)))
    {
      if ai.None? {
        return Err(InterpretError);
      }
      var found := FoundSymbols(dreamSymbols, dreamText);
      var interpretation := ai.value + "\n\n";
      if |found| == 0 {
        assert interpretation == Reading(ai.value, found);
      } else {
        interpretation := interpretation + SymbolsHeader;
        ghost var prefix := interpretation;
        var i := 0;
        while i < |found|
          invariant 0 <= i <= |found|
          invariant interpretation == prefix + Appendix(found[..i])
        {
          AppendixStep(found, i);
          AppendAssoc(prefix, Appendix(found[..i]), SymbolLine(found[i]));
          interpretation := interpretation + SymbolLine(found[i]);
          i := i + 1;
        }
        assert found[..|found|] == found;
        ReadingWithSymbols(ai.value, found);
      }
      assert interpretation == Reading(ai.value, found);
      return Ok(interpretation);
    }
  }
}
