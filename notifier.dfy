/**
 * Telegram notifier (aurora.py, `send_telegram_alert`): which of the three
 * Bot API methods is posted to, what is attached, and whether delivery is
 * reported as successful. The HTTP post is outside the model; its status
 * code is an input.
 */
module Notifier {
  import opened Json
  import opened Optional

  /** The three Bot API methods the notifier can post to. */
  datatype Endpoint = SendPhoto | SendMediaGroup | SendMessage

  /** One post: the method, the message (caption or text) and the files
      attached to the multipart body. */
  datatype Post = Post(endpoint: Endpoint, message: JsonValue, attached: seq<string>)

  /** The single post made and whether it was reported as delivered. */
  datatype Delivery = Delivery(post: Post, delivered: bool)

  /** `image_paths and len(image_paths) == 1` / `== 2` / otherwise. */
  function SelectEndpoint(imagePaths: Option<seq<string>>): (e: Endpoint)
    ensures e == SendPhoto <==> imagePaths.Some? && |imagePaths.value| == 1
    ensures e == SendMediaGroup <==> imagePaths.Some? && |imagePaths.value| == 2
    ensures e == SendMessage <==>
      imagePaths.None? || |imagePaths.value| == 0 || |imagePaths.value| >= 3
  {
    if imagePaths.Some? && imagePaths.value != [] && |imagePaths.value| == 1 then SendPhoto
    else if imagePaths.Some? && imagePaths.value != [] && |imagePaths.value| == 2 then SendMediaGroup
    else SendMessage
  }

  /** The one post made for `message` and `imagePaths`, given the HTTP status
      of its reply. A photo post attaches the first path only (the media
      group's second entry refers to a file that is never attached); a
      text post attaches nothing. Only status 200 counts as delivered. */
  function SendTelegramAlert(message: JsonValue, imagePaths: Option<seq<string>>, status: int): (r: Delivery)
    ensures r.post.endpoint == SelectEndpoint(imagePaths)
    ensures r.post.message == message
    ensures r.post.endpoint == SendMessage ==> r.post.attached == []
    ensures r.post.endpoint != SendMessage ==>
      imagePaths.Some? && r.post.attached == [imagePaths.value[0]]
    ensures r.delivered <==> status == 200
  {
    var endpoint := SelectEndpoint(imagePaths);
    var attached := if endpoint == SendMessage then [] else [imagePaths.value[0]];
    Delivery(Post(endpoint, message, attached), status == 200)
  }

  /** A single image goes to `sendPhoto`, attached, with the message as caption. */
  lemma SingleImageGoesToSendPhoto(message: JsonValue, path: string, status: int)
    ensures SendTelegramAlert(message, Some([path]), status).post
         == Post(SendPhoto, message, [path])
  {
  }

  /** Two images go to `sendMediaGroup` with the first one attached; none, or
      three and more, go to `sendMessage` with nothing attached. */
  lemma OtherCountsEndpoints(message: JsonValue, paths: seq<string>, status: int)
    ensures |paths| == 2 ==>
      SendTelegramAlert(message, Some(paths), status).post == Post(SendMediaGroup, message, [paths[0]])
    ensures (|paths| == 0 || |paths| >= 3) ==>
      SendTelegramAlert(message, Some(paths), status).post == Post(SendMessage, message, [])
    ensures SendTelegramAlert(message, None, status).post == Post(SendMessage, message, [])
  {
  }
}
