/** The growing buffer that collects a model's streamed output. */
module OutputBuffer {
  import opened CString

  const INITIAL := 1024

  class Output {
    var content: array<char>
    var len: nat
    var cap: nat

    /** The chunks taken so far, and the sizes of all buffers that were outgrown, added up. */
    ghost var appended: string
    ghost var outgrown: nat

    ghost predicate Valid()
      reads this, content
    {
      && content.Length == cap && len < cap && INITIAL <= cap
      && content[..len] == appended && content[len] == '\0'
      && '\0' !in appended && outgrown < cap
    }

    constructor ()
      ensures Valid() && fresh(content) && appended == "" && cap == 1024 && outgrown == 0
    {
      content := new char[INITIAL](_ => '\0');
      len, cap := 0, INITIAL;
      appended, outgrown := "", 0;
    }

    /** The doubled size that has room for `required` characters. */
    method NewSize(required: nat) returns (newCap: nat)
      requires 0 < cap < required
      ensures required <= newCap < 2 * required && 2 * cap <= newCap
    {
      newCap := cap * 2;
      while newCap < required
        invariant 2 * cap <= newCap < 2 * required
        decreases required - newCap
      {
        newCap := newCap * 2;
      }
    }

    /**
      * Appends a chunk without zeros; without memory the chunk is dropped and nothing changes. The buffer
      * is never more than twice as large as needed when it grows, and all the buffers given up on the way
      * together are smaller than the present one, so that copying costs no more than the output itself.
      */
    method Append(chunk: string, memory: bool)
      requires Valid() && '\0' !in chunk
      modifies this, content
      ensures Valid() && (content == old(content) || fresh(content))
      ensures var taken := memory || old(len) + |chunk| + 1 <= old(cap);
              && appended == old(appended) + (if taken then chunk else "")
              && (!taken ==> len == old(len) && cap == old(cap) && content == old(content))
      ensures cap == old(cap) || cap < 2 * (len + 1)
      ensures len == |appended| && outgrown < cap
    {
      if chunk == "" {
        return;
      }
      var required := len + |chunk| + 1;
      if required > cap {
        var newCap := NewSize(required);
        if !memory {
          return;
        }
        outgrown := outgrown + cap;
        Reallocate(newCap);
      }
      forall i | 0 <= i < |chunk| {
        content[len + i] := chunk[i];
      }
      len := len + |chunk|;
      content[len] := '\0';
      appended := appended + chunk;
    }

    method Reallocate(newCap: nat)
      requires content.Length == cap && len < cap <= newCap
      modifies this`content, this`cap
      ensures fresh(content) && content.Length == cap == newCap && content[..len] == old(content[..len])
    {
      var larger := new char[newCap](_ => '\0');
      forall i | 0 <= i < cap {
        larger[i] := content[i];
      }
      content, cap := larger, newCap;
    }

    /** What a reader of the C string sees is the concatenation of the chunks. */
    lemma {:induction false} ReadsAsAppended()
      requires Valid()
      ensures Terminated(content[..], '\0') && Text(content[..], '\0') == appended
    {
      TextIs(content[..], '\0', len);
    }
  }
}
