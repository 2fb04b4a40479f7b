// Declarations shared by the models: an optional value, the error codes of
// src/include/lib/error.h that the models mention, and the kinds of request.

module Common {
  datatype Option<+T> = None | Some(value: T)

  // sys_time_t is a 32-bit counter of milliseconds.
  const CLOCK := 0x1_0000_0000

  // The text stands at position i of the string.
  predicate OccursAt(s: string, i: nat, text: string) { i + |text| <= |s| && s[i..i + |text|] == text }

  const ERR_SUCCESS := 0
  const ERR_FAILURE := -1
  const ERR_WOULD_BLOCK := -2
  const ERR_NO_MEMORY := -3
  const ERR_TIMEOUT := -13
  const ERR_OVERFLOW := -14
  const ERR_INVALID_FORMAT := -18
  const ERR_NO_RESOURCE := -20
  const ERR_DUPLICATE := -21
  const ERR_NO_CONTENT := -101
  const ERR_UNCHANGED := -102
  const ERR_CIK_NOT_VALID := -104
  const ERR_REQUEST_ABORTED := -105
  const ERR_ACTIVATE_CONFLICT := -106
  const ERR_ACTIVATE_NOT_FOUND := -107

  // enum exosite_method
  datatype Procedure =
    | DpWrite | DpRead | DpReadWrite | DpSubscribe
    | PpActivate | PpListContent | PpDownloadContent
    | UpTimestamp | UpIp
}
