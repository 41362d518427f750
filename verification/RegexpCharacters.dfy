/** The characters and property names that I-Regexp patterns may show, by one-construct patterns. */
module RegexpCharacters {
  import opened Common
  import opened RegexpGrammar
  import opened RegexpChecker

  predicate Accepted(s: string) {
    Accepts(s, 0, 0, false)
  }

  /** Outside classes every character but ten is a pattern of its own. */
  lemma BareCharacters(c: char)
    ensures Accepted([c]) <==> c !in "()*+?[\\]{}"
  {
    var s := [c];
    assert Accepts(s, 1, 0, true) && Accepts(s, 1, 0, false) && !Accepts(s, 1, 1, false);
  }

  /** A class of one character: all but the backslash, the brackets and the bare negation. */
  lemma ClassCharacters(c: char)
    ensures Accepted("[" + [c] + "]") <==> c !in "[\\]^"
  {
    var s := "[" + [c] + "]";
    assert s[1] == c && s[2] == ']' && |s| == 3;
    AcceptedClass(s);
    assert ElementsEnd(s, 2) == Some(3);
  }

  /** Behind another element `^` stands for itself as well. */
  lemma LaterClassCharacters(c: char)
    ensures Accepted("[a" + [c] + "]") <==> c !in "[\\]"
  {
    var s := "[a" + [c] + "]";
    assert s[1] == 'a' && s[2] == c && s[3] == ']' && |s| == 4;
    AcceptedClass(s);
    assert ElementsEnd(s, 3) == Some(4);
    assert ElementEnd(s, 1) == Some(2);
    assert c == ']' ==> ClassEnd(s, 0) == Some(3) && !Accepts(s, 3, 0, true);
  }

  lemma AcceptedClass(s: string)
    requires s != "" && s[0] == '['
    ensures ClassEnd(s, 0) == Some(|s|) ==> Accepted(s)
    ensures ClassEnd(s, 0).None? ==> !Accepted(s)
  {
  }

  /** The characters that a backslash may stand before, inside classes and outside. */
  lemma EscapedCharacters(c: char)
    ensures Accepted("\\" + [c]) <==> c in "()*+-.?[\\]^nrt{|}"
    ensures Accepted("[\\" + [c] + "]") <==> c in "()*+-.?[\\]^nrt{|}"
  {
    var s := "\\" + [c];
    assert s[0] == '\\' && s[1] == c && |s| == 2;
    assert Accepts(s, 2, 0, true);
    var t := "[\\" + [c] + "]";
    assert t[0] == '[' && t[1] == '\\' && t[2] == c && t[3] == ']' && |t| == 4;
    AcceptedClass(t);
    assert ElementsEnd(t, 3) == Some(4);
    assert PropertyEnd(t, 3) == None;
  }

  /** The second letters of the properties of a major category, section 3 of RFC 9485. */
  function MinorLetters(major: char): string {
    match major
    case 'L' => "lmotu"
    case 'M' => "cen"
    case 'N' => "dlo"
    case 'P' => "cdefios"
    case 'Z' => "lps"
    case 'S' => "ckmo"
    case 'C' => "cfno"
    case _ => ""
  }

  /** One major letter, or one and a minor letter of its own. */
  predicate PropertyName(name: string) {
    name != "" && name[0] in "LMNPZSC" && (|name| == 1 || (|name| == 2 && name[1] in MinorLetters(name[0])))
  }

  lemma CategoryLetters(name: string)
    ensures IsCategory(name) <==> PropertyName(name)
  {
    if |name| == 1 {
      assert name == [name[0]];
    } else if |name| == 2 {
      assert name == [name[0], name[1]];
    }
  }

  /** The property names that `\p` and `\P` take. */
  lemma PropertyNames(name: string, complement: bool)
    requires '}' !in name
    ensures Accepted((if complement then "\\P{" else "\\p{") + name + "}") <==> PropertyName(name)
  {
    hide IsCategory, PropertyName;
    var s := (if complement then "\\P{" else "\\p{") + name + "}";
    var k := 3 + |name|;
    assert s[0] == '\\' && (s[1] == 'p' || s[1] == 'P') && s[2] == '{' && s[k] == '}' && |s| == k + 1;
    assert s[3..k] == name;
    forall x | 3 <= x < k
      ensures s[x] != '}'
    {
      assert s[x] == name[x - 3];
    }
    assert PropertyStop(s, 3) == k;
    CategoryLetters(name);
    assert Accepts(s, k + 1, 0, true);
  }
}
