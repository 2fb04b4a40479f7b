// The content of a write request as src/server_api/exosite_http_api.c builds it, and reading it
// back from a response.

module HttpRequest {
  import opened Common
  import opened Ctype
  import opened HttpPayload
  import opened StringClass

  // The part of http_create_write_request that builds the content; memory says for which of the
  // three parts the buffer could grow if it has to.
  method WriteContent(alias: string, value: string, memory: (bool, bool, bool)) returns (status: int, content: Str)
    ensures fresh(content) && content.Valid() && fresh(content.buffer)
    ensures status == ERR_SUCCESS || status == ERR_NO_MEMORY
    ensures status == ERR_SUCCESS ==> content.Text() == alias + "=" + value
    ensures |alias| + 1 + |value| <= 256 || memory == (true, true, true) ==> status == ERR_SUCCESS
  {
    content := new Str("");
    status := content.Catcn(alias, memory.0);
    if status != ERR_SUCCESS { return; }
    status := content.Catcn("=", memory.1);
    if status != ERR_SUCCESS { return; }
    status := content.Catcn(value, memory.2);
  }

  // What is written for an alias without an equals sign is read back: a response to a read with
  // this content leaves the alphanumeric value in the payload buffer, terminated, if it fits.
  method ReadBack(alias: string, value: string, content: Str, payload: array<char>) returns (status: int)
    requires content.Valid() && content.Text() == alias + "=" + value
    requires '=' !in alias && forall j :: 0 <= j < |value| ==> IsAlnum(value[j])
    requires content.size <= payload.Length && |value| + 1 < payload.Length
    requires payload != content.buffer
    modifies payload
    ensures status == ERR_SUCCESS && CString(payload[..]) == value
  {
    var body := content.Text();
    MemCpy(payload, 0, body);
    assert payload[..|body|] == body;
    ghost var before := payload[..];
    status := ParsePayload(DpRead, payload, |body|, 200);
    ValueRoundTrip(alias, value, payload[..], before);
  }
}
