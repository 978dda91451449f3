/** What a request to the Redis store asks for, on the fields of an entry, and that this is what the store's
    own comparison of normalised names computes. */
module RedisRequest {
  import opened Common
  import opened RedisStore

  /** The same letter, in whatever case, or the same character. */
  predicate SameLetter(c: char, d: char) {
    c == d || ('A' <= c <= 'Z' && d as int == c as int + 32) || ('A' <= d <= 'Z' && c as int == d as int + 32)
  }

  predicate SameName(a: string, b: string) {
    |a| == |b| && forall i :: 0 <= i < |a| ==> SameLetter(a[i], b[i])
  }

  /** The entry is a message of this type and, if a service is given, of that service in whatever case; an entry
      without a service is one of the service "_global_". */
  predicate AskedFor(b: Blob, smsType: SmsType, filter: string) {
    && b.content.Message? && b.content.smsType == smsType
    && (|filter| > 0 ==> SameName(filter, if b.content.service == "" then "_global_" else b.content.service))
  }

  lemma SameLetterIff(c: char, d: char)
    ensures LowerChar(c) == LowerChar(d) <==> SameLetter(c, d)
  {
    assert LowerChar(c) as int == if 'A' <= c <= 'Z' then c as int + 32 else c as int;
    assert LowerChar(d) as int == if 'A' <= d <= 'Z' then d as int + 32 else d as int;
  }

  /** Two names have the same lower-case form exactly when they differ in the case of letters only. */
  lemma SameNameIff(a: string, b: string)
    ensures Lower(a) == Lower(b) <==> SameName(a, b)
  {
    if |a| == |b| {
      forall i | 0 <= i < |a| ensures Lower(a)[i] == Lower(b)[i] <==> SameLetter(a[i], b[i]) {
        SameLetterIff(a[i], b[i]);
      }
      if SameName(a, b) { assert forall i :: 0 <= i < |a| ==> Lower(a)[i] == Lower(b)[i]; }
    }
  }

  /** The store's comparison takes exactly what is asked for. */
  lemma MatchesIff(b: Blob, smsType: SmsType, filter: string)
    ensures Matches(b, smsType, filter) <==> AskedFor(b, smsType, filter)
  {
    if b.content.Message? && filter != "" {
      var named := if b.content.service == "" then "_global_" else b.content.service;
      SameNameIff(filter, named);
      assert Lower("_global_") == "_global_";
      assert NormService(b.content.service) == Lower(named);
    }
  }
}
