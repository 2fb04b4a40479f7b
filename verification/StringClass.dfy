// The strings of src/lib/string_class.c: a buffer that is reallocated and overwritten, a size,
// and a terminator behind the content.

module StringClass {
  import opened Common
  import opened ReplaceAll

  // sf_memcpy into a buffer
  method MemCpy(dst: array<char>, at: nat, src: string)
    requires at + |src| <= dst.Length
    modifies dst
    ensures dst[..at] == old(dst[..at]) && dst[at..at + |src|] == src && dst[at + |src|..] == old(dst[at + |src|..])
  {
    var i := 0;
    while i < |src|
      invariant i <= |src|
      invariant dst[..at] == old(dst[..at]) && dst[at..at + i] == src[..i] && dst[at + i..] == old(dst[at + i..])
    {
      dst[at + i] := src[i];
      i := i + 1;
    }
  }

  // A new buffer with three parts and a terminator
  method Assemble(front: string, middle: string, back: string) returns (b: array<char>)
    ensures fresh(b) && b.Length == |front| + |middle| + |back| + 1
    ensures b[..b.Length - 1] == front + middle + back && b[b.Length - 1] == '\0'
  {
    var n := |front| + |middle|;
    b := new char[n + |back| + 1];
    MemCpy(b, 0, front);
    MemCpy(b, |front|, middle);
    assert b[..n] == b[..|front|] + b[|front|..n];
    MemCpy(b, n, back);
    b[n + |back|] := '\0';
    assert b[..n + |back|] == b[..n] + b[n..n + |back|];
  }

  class Str {
    var buffer: array?<char>
    var size: nat
    var bufsize: nat
    var fixedSize: bool

    // string_new, for which there is memory
    constructor (init: string)
      ensures Valid() && Text() == init && !fixedSize && fresh(buffer) && bufsize == |init| + 257
    {
      size, bufsize, fixedSize := |init|, |init| + 1 + 256, false;
      buffer := new char[|init| + 1 + 256];
      new;
      MemCpy(buffer, 0, init);
      buffer[size] := '\0';
    }

    // string_new_const, for which there is memory
    constructor Const(init: string)
      ensures Valid() && Text() == init && fixedSize && fresh(buffer)
    {
      size, bufsize, fixedSize := |init|, |init| + 1, true;
      buffer := new char[|init| + 1];
      new;
      MemCpy(buffer, 0, init);
      buffer[size] := '\0';
    }

    ghost predicate Valid()
      reads this, buffer
    {
      buffer != null && buffer.Length == bufsize && size < bufsize && buffer[size] == '\0'
    }

    function Text(): string
      requires Valid()
      reads this, buffer
    {
      buffer[..size]
    }

    // The reallocation in string_catcn, if it is needed
    method Reserve(n: nat, memory: bool) returns (ok: bool)
      requires Valid()
      modifies this
      ensures Valid() && (buffer == old(buffer) || fresh(buffer)) && fixedSize == old(fixedSize)
      ensures Text() == old(Text()) && size == old(size)
      ensures ok == (size + n <= old(bufsize) - 1 || memory)
      ensures if ok && size + n > old(bufsize) - 1 then bufsize == old(bufsize) + n else bufsize == old(bufsize)
    {
      if n + size > bufsize - 1 {
        if !memory { return false; }
        var bigger := new char[bufsize + n];
        MemCpy(bigger, 0, buffer[..]);
        assert bigger[..bufsize] == buffer[..];
        assert bigger[..size] == bigger[..bufsize][..size];
        assert bigger[size] == bigger[..bufsize][size];
        buffer, bufsize := bigger, bufsize + n;
      }
      return true;
    }

    // string_catcn
    method Catcn(chunk: string, memory: bool) returns (error: int)
      requires Valid()
      modifies this, buffer
      ensures Valid() && (buffer == old(buffer) || fresh(buffer)) && fixedSize == old(fixedSize)
      ensures error == if chunk == "" then ERR_SUCCESS
                       else if fixedSize then ERR_FAILURE
                       else if old(size) + |chunk| > old(bufsize) - 1 && !memory then ERR_NO_MEMORY
                       else ERR_SUCCESS
      ensures Text() == old(Text()) + if error == ERR_SUCCESS then chunk else ""
      ensures bufsize == old(bufsize) || bufsize == old(bufsize) + |chunk|
    {
      if |chunk| == 0 { return ERR_SUCCESS; }
      if fixedSize { return ERR_FAILURE; }
      var ok := Reserve(|chunk|, memory);
      if !ok { return ERR_NO_MEMORY; }
      ghost var text := Text();
      MemCpy(buffer, size, chunk);
      assert buffer[..size + |chunk|] == buffer[..size] + buffer[size..size + |chunk|] == text + chunk;
      size := size + |chunk|;
      buffer[size] := '\0';
      assert buffer[..size] == text + chunk;
      return ERR_SUCCESS;
    }

    // The text, without a terminator in it, is what is done with and the rest.
    ghost predicate Reads(done: string, rest: string)
      reads this, buffer
    {
      Valid() && '\0' !in done + rest && Text() == done + rest
    }

    // One round of the loop of string_replace, for which there is memory: the text goes to a new
    // buffer, with the occurrence at tok replaced.
    method ReplaceAt(tok: nat, needle: string, repl: string, ghost done: string, ghost rest: string)
      requires Reads(done, rest) && '\0' !in repl
      requires |done| <= tok <= |done| + |rest| && OccursAt(rest, tok - |done|, needle)
      modifies this
      ensures fresh(buffer) && fixedSize == old(fixedSize)
      ensures Reads(done + rest[..tok - |done|] + repl, rest[tok - |done| + |needle|..])
    {
      var oldstr := buffer;
      assert oldstr[..size] == done + rest;
      assert oldstr[..tok] == done + rest[..tok - |done|];
      assert oldstr[tok + |needle|..size] == rest[tok - |done| + |needle|..];
      buffer := Assemble(oldstr[..tok], repl, oldstr[tok + |needle|..size]);
      size := size - |needle| + |repl|;
      bufsize := size + 1;
    }

    // strstr(head, needle)
    method Find(head: nat, needle: string, ghost done: string, ghost rest: string) returns (tok: Option<nat>)
      requires Reads(done, rest) && head == |done|
      ensures tok.Some? ==> head <= tok.value <= head + |rest| && FirstAt(rest, tok.value - head, needle)
      ensures tok.None? ==> needle != "" && NoneIn(rest, needle)
    {
      assert Text()[head..] == rest;
      tok := StrStr(Text(), head, needle);
    }

    // string_replace; the first budget allocations succeed. Without memory the buffer is lost.
    method Replace(substr: Option<string>, replacement: Option<string>, budget: nat) returns (error: int)
      requires Valid() && '\0' !in Text()
      requires substr.Some? ==> '\0' !in substr.value
      requires replacement.Some? ==> '\0' !in replacement.value
      modifies this
      ensures error == ERR_SUCCESS || error == ERR_NO_MEMORY
      ensures error == ERR_SUCCESS <==>
                substr == None || replacement == None
                || (substr.value != "" && Replacements(old(Text()), substr.value) <= budget)
      ensures error == ERR_SUCCESS ==>
                && Valid() && (buffer == old(buffer) || fresh(buffer)) && '\0' !in Text()
                && Text() == if substr == None || replacement == None then old(Text())
                             else Replaced(old(Text()), substr.value, replacement.value)
      ensures error == ERR_NO_MEMORY ==> buffer == null
    {
      if substr == None || replacement == None { return ERR_SUCCESS; }
      var needle, repl := substr.value, replacement.value;
      error := ReplaceEach(needle, repl, budget, Text());
    }

    // Its loop
    method ReplaceEach(needle: string, repl: string, budget: nat, ghost s: string) returns (error: int)
      requires Reads("", s) && '\0' !in repl
      modifies this
      ensures error == if needle != "" && Replacements(s, needle) <= budget then ERR_SUCCESS else ERR_NO_MEMORY
      ensures error == ERR_SUCCESS ==>
                (buffer == old(buffer) || fresh(buffer)) && Reads("", Replaced(s, needle, repl))
      ensures error == ERR_NO_MEMORY ==> buffer == null
    {
      var head: nat, left: nat := 0, budget;
      ghost var done, rest := "", s;
      assert Progress(s, done, rest, needle, repl, 0);
      var tok := Find(head, needle, done, rest);
      while tok.Some?
        invariant (buffer == old(buffer) || fresh(buffer)) && Reads(done, rest) && head == |done|
        invariant if tok.Some? then head <= tok.value <= head + |rest| && FirstAt(rest, tok.value - head, needle)
                  else needle != "" && NoneIn(rest, needle)
        invariant Progress(s, done, rest, needle, repl, budget - left)
        decreases left
      {
        ghost var i := tok.value - head;
        NextOccurrence(s, done, rest, i, needle, repl, budget - left);
        if left == 0 {
          buffer := null;
          return ERR_NO_MEMORY;
        }
        left := left - 1;
        ReplaceAt(tok.value, needle, repl, done, rest);
        done, rest := done + rest[..i] + repl, rest[i + |needle|..];
        head := tok.value + |repl|;
        assert head == |done|;
        tok := Find(head, needle, done, rest);
      }
      AllReplaced(s, done, rest, needle, repl, budget - left);
      return ERR_SUCCESS;
    }
  }

  // The text s has become done, after n replacements, but for the rest.
  ghost predicate Progress(s: string, done: string, rest: string, needle: string, repl: string, n: int) {
    needle != "" ==>
      && Replaced(s, needle, repl) == done + Replaced(rest, needle, repl)
      && Replacements(s, needle) == n + Replacements(rest, needle)
  }

  lemma NextOccurrence(s: string, done: string, rest: string, i: nat, needle: string, repl: string, n: int)
    requires Progress(s, done, rest, needle, repl, n) && FirstAt(rest, i, needle)
    ensures Progress(s, done + rest[..i] + repl, rest[i + |needle|..], needle, repl, n + 1)
    ensures needle != "" ==> Replacements(s, needle) > n
  {
    if needle != "" {
      ReplacedFirst(rest, i, needle, repl);
      var r := Replaced(rest[i + |needle|..], needle, repl);
      assert done + (rest[..i] + repl + r) == (done + rest[..i] + repl) + r;
    }
  }

  lemma AllReplaced(s: string, done: string, rest: string, needle: string, repl: string, n: int)
    requires Progress(s, done, rest, needle, repl, n) && needle != "" && NoneIn(rest, needle)
    ensures Replaced(s, needle, repl) == done + rest && Replacements(s, needle) == n
  {
    ReplacedNone(rest, needle, repl);
  }
}
