/** The one-pass I-Regexp checker and its specification as a character-driven recogniser. */
module RegexpChecker {
  import opened Common
  import opened Text
  import opened RegexpGrammar

  // ---- Specification of the helpers: where a construct that starts at `i` ends, if it is well formed

  function PropertyStop(s: string, i: nat): (k: nat)
    requires i <= |s|
    ensures i <= k <= |s| && forall x | i <= x < k :: s[x] != '}'
    ensures k < |s| ==> s[k] == '}'
    decreases |s| - i
  {
    if i < |s| && s[i] != '}' then PropertyStop(s, i + 1) else i
  }

  /** `{Property}` after `\p` or `\P`. */
  function PropertyEnd(s: string, i: nat): (e: Option<nat>)
    ensures e.Some? ==> i < e.value <= |s|
  {
    if i >= |s| || s[i] != '{' then None
    else
      var k := PropertyStop(s, i + 1);
      if k < |s| && IsCategory(s[i + 1..k]) then Some(k + 1) else None
  }

  /** An escape outside a class; `i` is at the backslash. */
  function EscapeEnd(s: string, i: nat): (e: Option<nat>)
    requires i < |s|
    ensures e.Some? ==> i < e.value <= |s|
  {
    if i + 1 >= |s| then None
    else if IsSingleCharEscape(s[i + 1]) then Some(i + 2)
    else if s[i + 1] == 'p' || s[i + 1] == 'P' then PropertyEnd(s, i + 2)
    else None
  }

  /** A quantifier; `i` is at its first character. */
  function QuantifierEnd(s: string, i: nat): (e: Option<nat>)
    requires i < |s|
    ensures e.Some? ==> i < e.value <= |s|
  {
    if s[i] != '{' then Some(i + 1)
    else
      var k := DigitsEnd(s, i + 1);
      if k == i + 1 then None
      else
        var m := if k < |s| && s[k] == ',' then DigitsEnd(s, k + 1) else k;
        if m < |s| && s[m] == '}' then Some(m + 1) else None
  }

  function ClassCharEnd(s: string, i: nat): (e: Option<nat>)
    ensures e.Some? ==> i < e.value <= |s|
  {
    if i >= |s| then None
    else if s[i] == '\\' then (if i + 1 < |s| && IsSingleCharEscape(s[i + 1]) then Some(i + 2) else None)
    else if IsClassChar(s[i]) then Some(i + 1)
    else None
  }

  function ElementEnd(s: string, i: nat): (e: Option<nat>)
    requires i < |s|
    ensures e.Some? ==> i < e.value <= |s|
  {
    if s[i] == '\\' && i + 1 < |s| && (s[i + 1] == 'p' || s[i + 1] == 'P') then PropertyEnd(s, i + 2)
    else match ClassCharEnd(s, i)
      case None => None
      case Some(j) =>
        if j >= |s| || s[j] != '-' || (j + 1 < |s| && s[j + 1] == ']') then Some(j) else ClassCharEnd(s, j + 1)
  }

  /** The rest of a class, up to and including its bracket. */
  function ElementsEnd(s: string, i: nat): (e: Option<nat>)
    requires i <= |s|
    ensures e.Some? ==> i < e.value <= |s|
    decreases |s| - i
  {
    if i >= |s| then None
    else if s[i] == ']' then Some(i + 1)
    else if s[i] == '-' then (if i + 1 < |s| && s[i + 1] == ']' then Some(i + 2) else None)
    else match ElementEnd(s, i)
      case None => None
      case Some(j) => ElementsEnd(s, j)
  }

  /** A class; `i` is at its opening bracket. */
  function ClassEnd(s: string, i: nat): (e: Option<nat>)
    requires i < |s|
    ensures e.Some? ==> i < e.value <= |s|
  {
    var j := if i + 1 < |s| && s[i + 1] == '^' then i + 2 else i + 1;
    if j >= |s| || s[j] == ']' then None
    else if s[j] == '-' then ElementsEnd(s, j + 1)
    else match ElementEnd(s, j)
      case None => None
      case Some(k) => ElementsEnd(s, k)
  }

  predicate IsQuantifier(c: char) {
    c == '*' || c == '+' || c == '?' || c == '{'
  }

  /** Accept the rest of a pattern with `depth` open groups; `canQuantify` says that a quantifier may come next. */
  predicate Accepts(s: string, i: nat, depth: nat, canQuantify: bool)
    requires i <= |s|
    decreases |s| - i
  {
    if i == |s| then depth == 0
    else if s[i] == '(' then Accepts(s, i + 1, depth + 1, false)
    else if s[i] == ')' then depth > 0 && Accepts(s, i + 1, depth - 1, true)
    else if s[i] == '|' then Accepts(s, i + 1, depth, false)
    else if s[i] == '[' then ClassEnd(s, i).Some? && Accepts(s, ClassEnd(s, i).value, depth, true)
    else if s[i] == '\\' then EscapeEnd(s, i).Some? && Accepts(s, EscapeEnd(s, i).value, depth, true)
    else if s[i] == '.' then Accepts(s, i + 1, depth, true)
    else if IsQuantifier(s[i]) then
      canQuantify && QuantifierEnd(s, i).Some? && Accepts(s, QuantifierEnd(s, i).value, depth, false)
    else IsNormalChar(s[i]) && Accepts(s, i + 1, depth, true)
  }

  // ---- The checker

  class IRegexpChecker {
    const pattern: string
    var offset: nat
    var openGroupOffsets: seq<nat>
    var canQuantify: bool

    constructor (pattern: string)
      ensures this.pattern == pattern && offset == 0 && openGroupOffsets == [] && !canQuantify
    {
      this.pattern := pattern;
      offset := 0;
      openGroupOffsets := [];
      canQuantify := false;
    }

    /** The loop over the pattern: one construct per round, with the stack of open groups. */
    method Check() returns (ok: bool)
      requires offset == 0 && openGroupOffsets == [] && !canQuantify
      modifies this
      ensures ok <==> Accepts(pattern, 0, 0, false)
    {
      while offset < |pattern|
        invariant offset <= |pattern|
        invariant Accepts(pattern, offset, |openGroupOffsets|, canQuantify) <==> Accepts(pattern, 0, 0, false)
        decreases |pattern| - offset
      {
        var start := offset;
        var r := pattern[offset];
        if r == '(' {
          openGroupOffsets := openGroupOffsets + [start];
          offset := offset + 1;
          canQuantify := false;
        } else if r == ')' {
          if |openGroupOffsets| == 0 {
            return false;
          }
          openGroupOffsets := openGroupOffsets[..|openGroupOffsets| - 1];
          offset := offset + 1;
          canQuantify := true;
        } else if r == '|' {
          offset := offset + 1;
          canQuantify := false;
        } else if r == '[' {
          var fine := CheckCharacterClass();
          if !fine {
            return false;
          }
          canQuantify := true;
        } else if r == '\\' {
          var fine := CheckEscape();
          if !fine {
            return false;
          }
          canQuantify := true;
        } else if r == '.' {
          offset := offset + 1;
          canQuantify := true;
        } else if r == '*' || r == '+' || r == '?' || r == '{' {
          var fine := CheckQuantifier(r);
          if !fine {
            return false;
          }
        } else if IsNormalChar(r) {
          offset := offset + 1;
          canQuantify := true;
        } else {
          return false;
        }
      }
      return openGroupOffsets == [];
    }

    method CheckEscape() returns (ok: bool)
      requires offset < |pattern|
      modifies this`offset
      ensures ok <==> EscapeEnd(pattern, old(offset)).Some?
      ensures ok ==> offset == EscapeEnd(pattern, old(offset)).value
    {
      offset := offset + 1;
      if offset >= |pattern| {
        return false;
      }
      var r := pattern[offset];
      offset := offset + 1;
      if IsSingleCharEscape(r) {
        return true;
      }
      if r == 'p' || r == 'P' {
        ok := CheckUnicodeProperty();
        return;
      }
      return false;
    }

    method CheckUnicodeProperty() returns (ok: bool)
      modifies this`offset
      ensures ok <==> PropertyEnd(pattern, old(offset)).Some?
      ensures ok ==> offset == PropertyEnd(pattern, old(offset)).value
    {
      if offset >= |pattern| || pattern[offset] != '{' {
        return false;
      }
      offset := offset + 1;
      var propertyStart := offset;
      while offset < |pattern| && pattern[offset] != '}'
        invariant propertyStart <= offset <= |pattern|
        invariant PropertyStop(pattern, offset) == PropertyStop(pattern, propertyStart)
      {
        offset := offset + 1;
      }
      if offset >= |pattern| {
        return false;
      }
      var property := pattern[propertyStart..offset];
      offset := offset + 1;
      return IsCategory(property);
    }

    method CheckQuantifier(quantifier: char) returns (ok: bool)
      requires offset < |pattern| && quantifier == pattern[offset]
      modifies this`offset, this`canQuantify
      ensures ok <==> old(canQuantify) && QuantifierEnd(pattern, old(offset)).Some?
      ensures ok ==> offset == QuantifierEnd(pattern, old(offset)).value && !canQuantify
    {
      if !canQuantify {
        return false;
      }
      offset := offset + 1;
      if quantifier != '{' {
        canQuantify := false;
        return true;
      }
      var digitStart := offset;
      SkipDigits();
      if offset == digitStart {
        return false;
      }
      if offset < |pattern| && pattern[offset] == ',' {
        offset := offset + 1;
        SkipDigits();
      }
      if offset >= |pattern| || pattern[offset] != '}' {
        return false;
      }
      offset := offset + 1;
      canQuantify := false;
      return true;
    }

    method SkipDigits()
      requires offset <= |pattern|
      modifies this`offset
      ensures offset == DigitsEnd(pattern, old(offset))
    {
      while offset < |pattern| && IsDigit(pattern[offset])
        invariant old(offset) <= offset <= |pattern|
        invariant DigitsEnd(pattern, offset) == DigitsEnd(pattern, old(offset))
      {
        offset := offset + 1;
      }
    }

    method CheckCharacterClass() returns (ok: bool)
      requires offset < |pattern|
      modifies this`offset
      ensures ok <==> ClassEnd(pattern, old(offset)).Some?
      ensures ok ==> offset == ClassEnd(pattern, old(offset)).value
    {
      offset := offset + 1;
      if offset < |pattern| && pattern[offset] == '^' {
        offset := offset + 1;
      }
      if offset >= |pattern| {
        return false;
      }
      if pattern[offset] == ']' {
        return false;
      }
      if pattern[offset] == '-' {
        offset := offset + 1;
      } else {
        var fine := CheckCharacterClassElement();
        if !fine {
          return false;
        }
      }
      ok := CheckCharacterClassRest();
    }

    /** The loop over the rest of a class, up to its closing bracket. */
    method CheckCharacterClassRest() returns (ok: bool)
      requires offset <= |pattern|
      modifies this`offset
      ensures ok <==> ElementsEnd(pattern, old(offset)).Some?
      ensures ok ==> offset == ElementsEnd(pattern, old(offset)).value
    {
      hide ElementEnd;
      ghost var rest := offset;
      while offset < |pattern|
        invariant rest <= offset <= |pattern|
        invariant ElementsEnd(pattern, offset) == ElementsEnd(pattern, rest)
        decreases |pattern| - offset
      {
        if pattern[offset] == ']' {
          offset := offset + 1;
          return true;
        } else if pattern[offset] == '-' {
          offset := offset + 1;
          if offset < |pattern| && pattern[offset] == ']' {
            offset := offset + 1;
            return true;
          }
          return false;
        } else {
          var fine := CheckCharacterClassElement();
          if !fine {
            return false;
          }
        }
      }
      return false;
    }

    method CheckCharacterClassElement() returns (ok: bool)
      requires offset < |pattern|
      modifies this`offset
      ensures ok <==> ElementEnd(pattern, old(offset)).Some?
      ensures ok ==> offset == ElementEnd(pattern, old(offset)).value
    {
      if pattern[offset] == '\\' {
        offset := offset + 1;
        if offset >= |pattern| {
          return false;
        }
        var r := pattern[offset];
        offset := offset + 1;
        if r == 'p' || r == 'P' {
          ok := CheckUnicodeProperty();
          return;
        }
        if !IsSingleCharEscape(r) {
          return false;
        }
      } else {
        var fine := CheckCharacterClassChar();
        if !fine {
          return false;
        }
      }
      if offset >= |pattern| || pattern[offset] != '-' {
        return true;
      }
      if offset + 1 < |pattern| && pattern[offset + 1] == ']' {
        return true;
      }
      offset := offset + 1;
      ok := CheckCharacterClassChar();
    }

    method CheckCharacterClassChar() returns (ok: bool)
      modifies this`offset
      ensures ok <==> ClassCharEnd(pattern, old(offset)).Some?
      ensures ok ==> offset == ClassCharEnd(pattern, old(offset)).value
    {
      if offset >= |pattern| {
        return false;
      }
      if pattern[offset] == '\\' {
        offset := offset + 1;
        if offset >= |pattern| {
          return false;
        }
        var r := pattern[offset];
        offset := offset + 1;
        return IsSingleCharEscape(r);
      }
      if !IsClassChar(pattern[offset]) {
        return false;
      }
      offset := offset + 1;
      return true;
    }
  }
}
