/**
 The routing decision of the merchant webhook in app_merchant.py.

 The form fields arrive as optional strings. The blob upload and the
 WhatsApp send are collaborators whose code is not part of this model: each
 call is represented by its outcome, given as a parameter (the path the
 upload returned or the fact that it raised; whether a send raised).
 */
module Webhook {
  import opened Wrappers
  import opened Text
  import MerchantDb

  const SenderPrefix: string := "whatsapp:"
  const AudioPrefix: string := "audio/"

  /** A form value Python treats as true: present and non-empty. */
  predicate Truthy(v: Option<string>)
  {
    v.Some? && v.value != ""
  }

  /** What the handler does with a request, decided from the form fields alone. */
  datatype Kind =
    | Ignored
    | NotVoice(phone: string)
    | Voice(phone: string, mediaUrl: string, mediaType: string)

  /**
   The sender check, the phone extraction and the voice-note test. A missing
   or empty sender and a sender without the prefix are ignored; a missing
   content type counts as the empty string, which is never audio.
   */
  function Classify(sender: Option<string>, mediaUrl: Option<string>, mediaType: Option<string>): (k: Kind)
    ensures k.Ignored? <==> sender.None? || !StartsWith(sender.value, SenderPrefix)
    ensures !k.Ignored? ==> k.phone == ReplaceAll(sender.value, SenderPrefix, "")
    ensures k.Voice? <==>
              !k.Ignored? && Truthy(mediaUrl) && mediaType.Some? && StartsWith(mediaType.value, AudioPrefix)
    ensures k.Voice? ==> k.mediaUrl == mediaUrl.value && k.mediaType == mediaType.value
  {
    var contentType := if Truthy(mediaType) then mediaType.value else "";
    if !Truthy(sender) || !StartsWith(sender.value, SenderPrefix) then Ignored
    else
      var phone := ReplaceAll(sender.value, SenderPrefix, "");
      if Truthy(mediaUrl) && StartsWith(contentType, AudioPrefix) then Voice(phone, mediaUrl.value, contentType)
      else NotVoice(phone)
  }

  /** A sender of the form "whatsapp:" + p, where p does not itself contain "whatsapp:", has phone p. */
  lemma PrefixedSenderPhone(p: string, mediaUrl: Option<string>, mediaType: Option<string>)
    requires !Occurs(p, SenderPrefix)
    ensures !Classify(Some(SenderPrefix + p), mediaUrl, mediaType).Ignored?
    ensures Classify(Some(SenderPrefix + p), mediaUrl, mediaType).phone == p
  {
    assert (SenderPrefix + p)[..|SenderPrefix|] == SenderPrefix;
    StripPrefix(SenderPrefix, p);
  }

  /** A phone number made of '+' and digits never contains the sender prefix. */
  lemma NoPrefixInNumber(p: string)
    requires forall i :: 0 <= i < |p| ==> p[i] == '+' || '0' <= p[i] <= '9'
    ensures !Occurs(p, SenderPrefix)
  {
    forall i: nat ensures !OccursAt(p, SenderPrefix, i) {
      if i + |SenderPrefix| <= |p| {
        assert p[i..i + |SenderPrefix|][0] == p[i] != 'w';
      }
    }
  }

  // ---------------------------------------------------------------------------
  // Collaborators and effects
  // ---------------------------------------------------------------------------

  /** Outcome of `upload_twilio_media_to_gcs`. */
  datatype UploadResult = Uploaded(gcsPath: string) | UploadRaised

  /** Arguments of the upload call. */
  datatype UploadCall = UploadCall(mediaUrl: string, contentType: string, phone: string)

  /** The two fixed WhatsApp texts: audio received, and "please send it again". */
  datatype Message = AudioReceived | AudioProblem

  /** One call of `send_whatsapp`. */
  datatype Send = Send(to: string, message: Message)

  /** What the route hands back to Flask, or an exception escaping the handler. */
  datatype Response = Returned(body: string, status: nat) | Propagated

  const NoContent: Response := Returned("", 204)

  /**
   Everything one request does besides resolving the merchant: the upload
   call made, the storage path enqueued, the sends attempted in order, and the
   response.
   */
  datatype Effects = Effects(upload: Option<UploadCall>, enqueue: Option<string>,
                             sends: seq<Send>, response: Response)

  /**
   Python keyword binding against a callee without `**kwargs`: every keyword
   must name a parameter and every required parameter must be given.
   */
  predicate Binds(params: set<string>, required: set<string>, kwargs: set<string>)
  {
    kwargs <= params && required <= kwargs
  }

  /** Parameters of `create_transcription_job`, both required. */
  const CreateJobParams: set<string> := {"merchant_id", "gcs_path"}
  /** Keywords the webhook passes to `create_transcription_job`. */
  const AsWrittenKwargs: set<string> := {"job_id", "merchant_id", "phone", "gcs_path", "status"}
  /** Keywords the callee accepts. */
  const IntendedKwargs: set<string> := {"merchant_id", "gcs_path"}

  /** The keywords the webhook passes do not bind; the callee's own do. */
  lemma EnqueueCallBinding()
    ensures !Binds(CreateJobParams, CreateJobParams, AsWrittenKwargs)
    ensures Binds(CreateJobParams, CreateJobParams, IntendedKwargs)
  {
    assert "job_id" in AsWrittenKwargs && "job_id" !in CreateJobParams;
  }

  /** The `except` branch: the apology is sent; if that send raises, the exception escapes. */
  function Recover(upload: Option<UploadCall>, enqueue: Option<string>, sent: seq<Send>,
                   phone: string, errorRaises: bool): (e: Effects)
    ensures e.upload == upload && e.enqueue == enqueue
    ensures e.sends == sent + [Send(phone, AudioProblem)]
    ensures e.response == (if errorRaises then Propagated else NoContent)
  {
    Effects(upload, enqueue, sent + [Send(phone, AudioProblem)], if errorRaises then Propagated else NoContent)
  }

  /**
   The handler body after the sender check, for a request of kind `k`, given
   whether the enqueue call binds and the collaborators' outcomes.
   */
  function Outcome(k: Kind, upload: UploadResult, enqueueBinds: bool, ackRaises: bool, errorRaises: bool): (e: Effects)
    ensures e.upload.Some? <==> k.Voice?
    ensures k.Voice? ==> e.upload == Some(UploadCall(k.mediaUrl, k.mediaType, k.phone))
    ensures e.enqueue.Some? <==> k.Voice? && upload.Uploaded? && enqueueBinds
    ensures e.enqueue.Some? ==> e.enqueue.value == upload.gcsPath
    ensures !k.Voice? ==> e.sends == [] && e.response == NoContent
    ensures k.Voice? ==> 1 <= |e.sends| <= 2 && forall s :: s in e.sends ==> s.to == k.phone
    ensures k.Voice? ==> (Send(k.phone, AudioReceived) in e.sends <==> e.enqueue.Some?)
    ensures k.Voice? ==> (e.sends == [Send(k.phone, AudioReceived)] <==> e.enqueue.Some? && !ackRaises)
    ensures k.Voice? && !(e.enqueue.Some? && !ackRaises) ==> e.sends[|e.sends| - 1] == Send(k.phone, AudioProblem)
    ensures k.Voice? && e.enqueue.None? ==> e.sends == [Send(k.phone, AudioProblem)]
    ensures e.response == Propagated <==> k.Voice? && errorRaises && !(e.enqueue.Some? && !ackRaises)
    ensures e.response != Propagated ==> e.response == NoContent
  {
    match k
    case Ignored => Effects(None, None, [], NoContent)
    case NotVoice(_) => Effects(None, None, [], NoContent)
    case Voice(phone, url, contentType) =>
      var call := Some(UploadCall(url, contentType, phone));
      if upload.UploadRaised? || !enqueueBinds then
        Recover(call, None, [], phone, errorRaises)
      else if ackRaises then
        Recover(call, Some(upload.gcsPath), [Send(phone, AudioReceived)], phone, errorRaises)
      else
        Effects(call, Some(upload.gcsPath), [Send(phone, AudioReceived)], NoContent)
  }

  /**
   The handler as written: the enqueue call passes keywords the callee does
   not accept, raises TypeError, and so never creates a job.
   */
  function HandlerAsWritten(k: Kind, upload: UploadResult, ackRaises: bool, errorRaises: bool): (e: Effects)
    ensures e.enqueue.None?
    ensures k.Voice? ==> e.sends == [Send(k.phone, AudioProblem)]
    ensures k.Voice? && !errorRaises ==> e.response == NoContent
  {
    EnqueueCallBinding();
    Outcome(k, upload, Binds(CreateJobParams, CreateJobParams, AsWrittenKwargs), ackRaises, errorRaises)
  }

  /**
   The handler with the enqueue call bound as the callee declares it: an
   uploaded voice note is enqueued under its storage path.
   */
  function Handler(k: Kind, upload: UploadResult, ackRaises: bool, errorRaises: bool): (e: Effects)
    ensures k.Voice? && upload.Uploaded? ==> e.enqueue == Some(upload.gcsPath)
    ensures k.Voice? && upload.Uploaded? && !ackRaises ==>
              e.sends == [Send(k.phone, AudioReceived)] && e.response == NoContent
    ensures k.Voice? && upload.UploadRaised? ==>
              e.enqueue.None? && e.sends == [Send(k.phone, AudioProblem)]
    ensures !errorRaises ==> e.response == NoContent
  {
    EnqueueCallBinding();
    Outcome(k, upload, Binds(CreateJobParams, CreateJobParams, IntendedKwargs), ackRaises, errorRaises)
  }

  /**
   A voice note from "whatsapp:+911234567890" is classified as audio for
   "+911234567890"; as written it is never enqueued, while the intended call
   enqueues it and acknowledges it.
   */
  lemma VoiceNoteScenario(gcsPath: string)
    ensures var k := Classify(Some("whatsapp:+911234567890"), Some("http://x/a.ogg"), Some("audio/ogg"));
            && k == Voice("+911234567890", "http://x/a.ogg", "audio/ogg")
            && HandlerAsWritten(k, Uploaded(gcsPath), false, false)
               == Effects(Some(UploadCall("http://x/a.ogg", "audio/ogg", "+911234567890")), None,
                          [Send("+911234567890", AudioProblem)], NoContent)
            && Handler(k, Uploaded(gcsPath), false, false)
               == Effects(Some(UploadCall("http://x/a.ogg", "audio/ogg", "+911234567890")), Some(gcsPath),
                          [Send("+911234567890", AudioReceived)], NoContent)
  {
    var p := "+911234567890";
    NoPrefixInNumber(p);
    assert SenderPrefix + p == "whatsapp:+911234567890";
    PrefixedSenderPhone(p, Some("http://x/a.ogg"), Some("audio/ogg"));
    assert StartsWith("audio/ogg", AudioPrefix);
  }

  // ---------------------------------------------------------------------------
  // The handler over the store
  // ---------------------------------------------------------------------------

  /**
   `twilio_merchant_webhook` against the store: validate the sender, resolve
   the merchant, and for a voice note upload, enqueue and acknowledge inside
   the try block. `kwargs` are the keywords passed to
   `create_transcription_job`: with `AsWrittenKwargs` the call never binds and
   no job is ever created; with `IntendedKwargs` an uploaded note is enqueued.
   */
  method HandleWebhook(store: MerchantDb.Store, sender: Option<string>, mediaUrl: Option<string>,
                       mediaType: Option<string>, kwargs: set<string>, upload: UploadResult,
                       ackRaises: bool, errorRaises: bool)
    returns (uploadCall: Option<UploadCall>, sends: seq<Send>, response: Response)
    requires store.Valid()
    modifies store
    ensures store.Valid()
    ensures var e := Outcome(Classify(sender, mediaUrl, mediaType), upload,
                    Binds(CreateJobParams, CreateJobParams, kwargs), ackRaises, errorRaises);
            uploadCall == e.upload && sends == e.sends && response == e.response
    ensures Classify(sender, mediaUrl, mediaType).Ignored? ==>
              store.merchants == old(store.merchants) && store.jobs == old(store.jobs)
    ensures Classify(sender, mediaUrl, mediaType).Ignored? ==>
              store.nextMerchantId == old(store.nextMerchantId) && store.nextJobToken == old(store.nextJobToken)
              && store.nextMemoryId == old(store.nextMemoryId) && store.clock == old(store.clock)
    ensures !Classify(sender, mediaUrl, mediaType).Ignored? ==>
              var phone := Classify(sender, mediaUrl, mediaType).phone;
              store.merchants ==
                MerchantDb.FindOrCreate(old(store.merchants), phone, old(store.nextMerchantId), old(store.clock)).table
    ensures Outcome(Classify(sender, mediaUrl, mediaType), upload,
                    Binds(CreateJobParams, CreateJobParams, kwargs), ackRaises, errorRaises).enqueue.None? ==>
              store.jobs == old(store.jobs)
    ensures Outcome(Classify(sender, mediaUrl, mediaType), upload,
                    Binds(CreateJobParams, CreateJobParams, kwargs), ackRaises, errorRaises).enqueue.Some? ==>
              |store.jobs| == |old(store.jobs)| + 1 && store.jobs[..|old(store.jobs)|] == old(store.jobs)
    ensures Outcome(Classify(sender, mediaUrl, mediaType), upload,
                    Binds(CreateJobParams, CreateJobParams, kwargs), ackRaises, errorRaises).enqueue.Some? ==>
              var phone := Classify(sender, mediaUrl, mediaType).phone;
              var job := store.jobs[|store.jobs| - 1];
              && job.merchantId ==
                   MerchantDb.FindOrCreate(old(store.merchants), phone, old(store.nextMerchantId), old(store.clock)).merchant.id
              && job.gcsPath == upload.gcsPath && job.status == MerchantDb.Pending
              && forall i :: 0 <= i < |old(store.jobs)| ==> old(store.jobs)[i].id != job.id
    ensures store.memory == old(store.memory) && store.claimed == old(store.claimed)
  {
    var k := Classify(sender, mediaUrl, mediaType);
    var binds := Binds(CreateJobParams, CreateJobParams, kwargs);
    if k.Ignored? {
      return None, [], NoContent;
    }
    var merchant := store.GetOrCreateMerchantByPhone(k.phone);
    if !k.Voice? {
      return None, [], NoContent;
    }
    uploadCall := Some(UploadCall(k.mediaUrl, k.mediaType, k.phone));
    sends := [];
    var raised := false;
    if upload.UploadRaised? || !binds {
      // an upload that raises, or a call whose keywords do not bind (TypeError)
      raised := true;
    } else {
      var jobId := store.CreateTranscriptionJob(merchant.id, upload.gcsPath);
      sends := sends + [Send(k.phone, AudioReceived)];
      raised := ackRaises;
    }
    if raised {
      sends := sends + [Send(k.phone, AudioProblem)];
      if errorRaises {
        return uploadCall, sends, Propagated;
      }
    }
    response := NoContent;
  }
}
