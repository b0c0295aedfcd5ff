/** Which properties of a schema are contacts: the words that make them so. */
module SchemaContacts {
  import opened Prelude
  import opened PayloadFlattening

  lemma {:induction false} LowerConcat(a: string, b: string)
    ensures Lower(a + b) == Lower(a) + Lower(b)
  {
    if a == "" {
      assert a + b == b;
    } else {
      assert (a + b)[1..] == a[1..] + b;
      LowerConcat(a[1..], b);
    }
  }

  lemma {:induction false} LowerTwice(s: string)
    ensures Lower(Lower(s)) == Lower(s)
  {
    if s != "" {
      LowerTwice(s[1..]);
      var first := if 'A' <= s[0] <= 'Z' then (s[0] as int + 32) as char else s[0];
      assert Lower(s) == [first] + Lower(s[1..]) && Lower(s)[1..] == Lower(s[1..]);
    }
  }

  // A word without spaces lies on one side of a space.
  lemma ContainsSplit(a: string, b: string, word: string)
    requires word != "" && ' ' !in word
    ensures Contains(a + " " + b, word) <==> Contains(a, word) || Contains(b, word)
  {
    var text := a + " " + b;
    if i :| 0 <= i <= |a| && word <= a[i..] {
      assert text[i..][..|word|] == a[i..][..|word|] == word;
    }
    if i :| 0 <= i <= |b| && word <= b[i..] {
      assert text[|a| + 1 + i..] == b[i..];
    }
    if i :| 0 <= i <= |text| && word <= text[i..] {
      assert text[|a|] == ' ' && forall k :: i <= k < i + |word| ==> text[k] == word[k - i];
      if i + |word| <= |a| {
        assert a[i..][..|word|] == text[i..][..|word|];
        assert Contains(a, word);
      } else if i > |a| {
        assert b[i - |a| - 1..] == text[i..];
        assert Contains(b, word);
      }
    }
  }

  // The word occurs in the text, whatever the case of its ASCII letters.
  ghost predicate Says(text: string, word: string) {
    Contains(Lower(text), word)
  }

  /** A property is a contact if and only if its name, its description or its format says phone, telephone,
      mobile or contact. */
  lemma ContactIff(name: string, s: Schema)
    requires s.Schema?
    ensures IsContact(name, s) <==>
      exists word :: word in {"phone", "telephone", "mobile", "contact"}
        && (Says(name, word) || Says(s.description, word) || Says(s.format, word))
  {
    var marker := Lower(name + " " + Lower(s.description) + " " + s.format);
    LowerConcat(name + " " + Lower(s.description) + " ", s.format);
    LowerConcat(name + " " + Lower(s.description), " ");
    LowerConcat(name + " ", Lower(s.description));
    LowerConcat(name, " ");
    LowerTwice(s.description);
    assert Lower(" ") == " ";
    var n, d, f := Lower(name), Lower(s.description), Lower(s.format);
    assert marker == n + " " + d + " " + f == (n + " " + d) + " " + f;
    assert CONTACT_WORDS[0] == "phone" && CONTACT_WORDS[1] == "telephone";
    assert CONTACT_WORDS[2] == "mobile" && CONTACT_WORDS[3] == "contact";
    forall word | word in {"phone", "telephone", "mobile", "contact"}
      ensures Contains(marker, word) <==> Contains(n, word) || Contains(d, word) || Contains(f, word)
    {
      ContainsSplit(n + " " + d, f, word);
      ContainsSplit(n, d, word);
    }
    if i :| 0 <= i < |CONTACT_WORDS| && Contains(marker, CONTACT_WORDS[i]) {
      assert CONTACT_WORDS[i] in {"phone", "telephone", "mobile", "contact"};
      assert Says(name, CONTACT_WORDS[i]) || Says(s.description, CONTACT_WORDS[i]) || Says(s.format, CONTACT_WORDS[i]);
    }
  }
}
