/**
 * The kernel-exception listener: for AJAX requests only, it classifies what
 * was thrown and installs exactly one JSON error response. The checks are
 * tried in a fixed order and the first that matches decides.
 */
module AjaxExceptionListener {
  import opened Wrappers
  import opened Http
  import opened AjaxExceptionEvent

  const AccessDeniedMessage: string := "Доступ запрещен"

  /** The response the listener installs for an AJAX request, as a function of what was thrown. */
  function Classify(ex: Throwable): (r: JsonResponse)
    ensures r.data.Keys == {"success", "message"} && r.data["success"] == JBool(false)
    ensures ex.isEntityNotFound ==> r == JsonResponse(map["success" := JBool(false), "message" := JString(NotFoundMessage)], 404)
    ensures !ex.isEntityNotFound && (ex.isBadRequest || ex.isInvalidArgument) ==>
      r == JsonResponse(map["success" := JBool(false), "message" := JString(ex.message)], 400)
    ensures !ex.isEntityNotFound && !ex.isBadRequest && !ex.isInvalidArgument && ex.isAccessDenied ==>
      r == JsonResponse(map["success" := JBool(false), "message" := JString(AccessDeniedMessage)], 403)
    ensures (!ex.isEntityNotFound && !ex.isBadRequest && !ex.isInvalidArgument && !ex.isAccessDenied
      && ex.httpStatusCode.Some?) ==> r == JsonResponse(map["success" := JBool(false), "message" := JString(ex.message)], ex.httpStatusCode.value)
    ensures (!ex.isEntityNotFound && !ex.isBadRequest && !ex.isInvalidArgument && !ex.isAccessDenied
      && ex.httpStatusCode.None?) ==> r == JsonResponse(map["success" := JBool(false), "message" := JString(InternalServerErrorMessage)], 500)
  {
    if ex.isEntityNotFound then JsonResponse(map["success" := JBool(false), "message" := JString("Не найдено")], 404)
    else if ex.isBadRequest || ex.isInvalidArgument then JsonResponse(map["success" := JBool(false), "message" := JString(ex.message)], 400)
    else if ex.isAccessDenied then JsonResponse(map["success" := JBool(false), "message" := JString("Доступ запрещен")], 403)
    else if ex.httpStatusCode.Some? then
      JsonResponse(map["success" := JBool(false), "message" := JString(ex.message)], ex.httpStatusCode.value)
    else JsonResponse(map["success" := JBool(false), "message" := JString("Внутренняя ошибка сервера")], 500)
  }

  method OnKernelException(event: ExceptionEvent)
    modifies event
    ensures !WantsJson(event.request) ==> event.response == old(event.response)
    ensures WantsJson(event.request) ==> event.response == Some(Classify(event.throwable))
  {
    var ajaxEvent := new AjaxExceptionEvent(event);

    if !ajaxEvent.IsAjaxRequest() {
      return;
    }

    var exception := ajaxEvent.exceptionEvent.throwable;

    if exception.isEntityNotFound {
      ajaxEvent.SetNotFoundResponse("Не найдено");
      return;
    }

    if exception.isBadRequest || exception.isInvalidArgument {
      ajaxEvent.SetBadRequestResponse(exception.message);
      return;
    }

    if exception.isAccessDenied {
      ajaxEvent.SetJsonResponse(map["success" := JBool(false), "message" := JString("Доступ запрещен")], 403);
      return;
    }

    if exception.httpStatusCode.Some? {
      ajaxEvent.SetJsonResponse(
        map["success" := JBool(false), "message" := JString(exception.message)],
        exception.httpStatusCode.value);
      return;
    }

    ajaxEvent.SetInternalServerErrorResponse("Внутренняя ошибка сервера");
  }

  /**
   * The order decides for objects of several classes: a not-found exception
   * that also carries an HTTP status is still answered 404, and an invalid
   * argument that also carries an HTTP status is answered 400.
   */
  lemma FirstMatchWins(ex: Throwable)
    requires ex.httpStatusCode == Some(409)
    ensures ex.isEntityNotFound ==> Classify(ex).status == 404
    ensures !ex.isEntityNotFound && ex.isInvalidArgument ==> Classify(ex).status == 400
    ensures !ex.isEntityNotFound && !ex.isBadRequest && !ex.isInvalidArgument && !ex.isAccessDenied ==>
      Classify(ex).status == 409
  {
  }

  /** A 404 arises from a not-found exception or from an HTTP exception that itself says 404, and from nothing else. */
  lemma NotFoundStatusSources(ex: Throwable)
    ensures Classify(ex).status == 404 <==>
      ex.isEntityNotFound
      || (!ex.isBadRequest && !ex.isInvalidArgument && !ex.isAccessDenied && ex.httpStatusCode == Some(404))
  {
  }

  /** The service's not-found exception, met in an AJAX request, ends as 404 'Не найдено' with success false. */
  method NotFoundFromServiceIs404(request: Request, message: string) returns (response: Option<JsonResponse>)
    requires WantsJson(request)
    ensures response == Some(JsonResponse(map["success" := JBool(false), "message" := JString("Не найдено")], 404))
  {
    var event := new ExceptionEvent(request, EntityNotFound(message));
    OnKernelException(event);
    response := event.response;
  }

  /** Outside AJAX the listener leaves the event without a response, whatever was thrown. */
  method NonAjaxGetsNoResponse(request: Request, ex: Throwable) returns (response: Option<JsonResponse>)
    requires !WantsJson(request)
    ensures response == None
  {
    var event := new ExceptionEvent(request, ex);
    OnKernelException(event);
    response := event.response;
  }
}
