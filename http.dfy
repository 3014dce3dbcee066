/** The request and response vocabulary of the views. */
module Http {

  /** The responses the modelled views return. */
  datatype Response =
    | Created(id: nat)                         // 201, body: the serialized object with primary key `id`
    | NoContent                                // 204
    | BadRequest(key: string, message: string) // 400, body: {key: message}
    | NotFound                                 // 404, from get_object_or_404
    | Attachment(filename: string, contentDisposition: string, content: string)
                                               // 200, text/plain, charset utf-8

  /** The permission classes the view sets hand out. */
  datatype Permission = AllowAny | IsAuthenticated | IsAuthorOrReadOnly

  /** Who is asking: `request.user`. */
  datatype Requester = Anonymous | Authenticated(id: nat)

  /** The HTTP methods routed to `subscribe`. */
  datatype Method = Post | Delete
}
