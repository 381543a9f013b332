/**
 * The wrapper the error listener puts around the framework's exception
 * event: it tells whether the request is an AJAX one and installs JSON
 * error responses on the wrapped event.
 */
module AjaxExceptionEvent {
  import opened Wrappers
  import opened Http

  const NotFoundMessage: string := "Не найдено"
  const BadRequestMessage: string := "Неверный запрос"
  const InternalServerErrorMessage: string := "Внутренняя ошибка сервера"

  /** The framework's exception event: the request, what was thrown, and the response set so far. */
  class ExceptionEvent {
    const request: Request
    const throwable: Throwable
    var response: Option<JsonResponse>

    constructor (request: Request, throwable: Throwable)
      ensures this.request == request && this.throwable == throwable && response == None
    {
      this.request := request;
      this.throwable := throwable;
      response := None;
    }

    /** Replaces whatever response was set before. */
    method SetResponse(r: JsonResponse)
      modifies this
      ensures response == Some(r)
    {
      response := Some(r);
    }
  }

  class AjaxExceptionEvent {
    const exceptionEvent: ExceptionEvent

    constructor (exceptionEvent: ExceptionEvent)
      ensures this.exceptionEvent == exceptionEvent
    {
      this.exceptionEvent := exceptionEvent;
    }

    function IsAjaxRequest(): (ajax: bool)
      ensures ajax <==> WantsJson(exceptionEvent.request)
    {
      exceptionEvent.request.isXmlHttpRequest || exceptionEvent.request.accept == Some("application/json")
    }

    /** Installs a response with exactly `data` and `statusCode`, overwriting any earlier one. */
    method SetJsonResponse(data: map<string, Json>, statusCode: int := 500)
      modifies exceptionEvent
      ensures exceptionEvent.response == Some(JsonResponse(data, statusCode))
    {
      var response := JsonResponse(data, statusCode);
      exceptionEvent.SetResponse(response);
    }

    method SetNotFoundResponse(message: string := NotFoundMessage)
      modifies exceptionEvent
      ensures exceptionEvent.response == Some(JsonResponse(map["success" := JBool(false), "message" := JString(message)], 404))
    {
      SetJsonResponse(map["success" := JBool(false), "message" := JString(message)], 404);
    }

    method SetBadRequestResponse(message: string := BadRequestMessage)
      modifies exceptionEvent
      ensures exceptionEvent.response == Some(JsonResponse(map["success" := JBool(false), "message" := JString(message)], 400))
    {
      SetJsonResponse(map["success" := JBool(false), "message" := JString(message)], 400);
    }

    method SetInternalServerErrorResponse(message: string := InternalServerErrorMessage)
      modifies exceptionEvent
      ensures exceptionEvent.response == Some(JsonResponse(map["success" := JBool(false), "message" := JString(message)], 500))
    {
      SetJsonResponse(map["success" := JBool(false), "message" := JString(message)], 500);
    }
  }

  /** The defaults: a bare setJsonResponse is a 500, each helper has its own default message, and each call replaces the last. */
  method DefaultsAreApplied(request: Request, ex: Throwable)
    returns (bare: JsonResponse, notFound: JsonResponse, badRequest: JsonResponse, internal: JsonResponse, last: Option<JsonResponse>)
    ensures bare == JsonResponse(map[], 500)
    ensures notFound == JsonResponse(map["success" := JBool(false), "message" := JString("Не найдено")], 404)
    ensures badRequest == JsonResponse(map["success" := JBool(false), "message" := JString("Неверный запрос")], 400)
    ensures internal == JsonResponse(map["success" := JBool(false), "message" := JString("Внутренняя ошибка сервера")], 500)
    ensures last == Some(internal)
  {
    var event := new ExceptionEvent(request, ex);
    var ajax := new AjaxExceptionEvent(event);
    ajax.SetJsonResponse(map[]);
    bare := event.response.value;
    ajax.SetNotFoundResponse();
    notFound := event.response.value;
    ajax.SetBadRequestResponse();
    badRequest := event.response.value;
    ajax.SetInternalServerErrorResponse();
    internal := event.response.value;
    last := event.response;
  }
}
