/** The response store: whether a request is in flight, the last error and
    the last response. */
module Responses {
  import opened Common

  /** A received response; `headers` keeps the pairs in arrival order and
      `time` is in milliseconds, `size` in bytes. */
  datatype ResponseData = ResponseData(status: int, statusText: string, headers: seq<(string, string)>,
                                       body: string, time: int, size: nat)

  datatype ErrorInfo = ErrorInfo(message: string)

  class ResponseStore {
    var isLoading: bool
    var error: Option<ErrorInfo>
    var response: Option<ResponseData>

    /** The state `reset` returns to. */
    predicate IsCleared()
      reads this
    {
      !isLoading && error.None? && response.None?
    }

    constructor ()
      ensures IsCleared()
    {
      isLoading := false;
      error := None;
      response := None;
    }

    method SetLoading(loading: bool)
      modifies this
      ensures isLoading == loading && error == old(error) && response == old(response)
    {
      isLoading := loading;
    }

    method SetError(e: Option<ErrorInfo>)
      modifies this
      ensures error == e && isLoading == old(isLoading) && response == old(response)
    {
      error := e;
    }

    method SetResponse(r: Option<ResponseData>)
      modifies this
      ensures response == r && isLoading == old(isLoading) && error == old(error)
    {
      response := r;
    }

    method Reset()
      modifies this
      ensures IsCleared()
    {
      response := None;
      error := None;
      isLoading := false;
    }
  }
}
