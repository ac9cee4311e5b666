/** The SMS queue of sms/sms_queue.go: a bounded FIFO buffer of jobs, filled by
    Send and emptied by one worker that hands each job to the sender the provider
    names. The worker goroutine is modelled as WorkerStep, one turn of its loop;
    the channels, the wait group and the select are not modelled (see README). */
module SmsQueue {
  import opened Wrappers
  import opened GoStrings

  /** SMS: one message waiting to be delivered. */
  datatype Job = Job(recipient: Bytes, message: Bytes)

  /** A sender function registered with the queue. What it does when called lies
      outside the queue, so only its identity is kept; `None` stands for nil. */
  datatype Sender = Sender(id: nat)

  /** The sender a turn of the worker calls, if any. */
  datatype Route = ViaTwilio | ViaHardware | NoSender

  /** One turn of the worker: the job it took off the buffer, the sender it called,
      and the error that sender returned (only logged). */
  datatype Dispatch = Dispatch(job: Job, route: Route, failure: Option<Bytes>)

  /** Created by NewSMSQueue, Running after Start, Stopped after Stop. */
  datatype Lifecycle = Created | Running | Stopped

  /** The routing rule of the worker: the Twilio sender when the provider is
      "twilio" and that sender is set, the hardware sender when the provider is
      "hardware" and that sender is set, and no sender otherwise. */
  function RouteFor(provider: Bytes, twilio: Option<Sender>, hardware: Option<Sender>): (r: Route)
    ensures r == ViaTwilio <==> provider == Ascii("twilio") && twilio.Some?
    ensures r == ViaHardware <==> provider == Ascii("hardware") && hardware.Some?
  {
    if provider == Ascii("twilio") && twilio.Some? then ViaTwilio
    else if provider == Ascii("hardware") && hardware.Some? then ViaHardware
    else NoSender
  }

  /** No fallback: when the named provider's sender is nil, the job goes nowhere,
      even if the other sender is set; and no other provider name reaches a sender. */
  lemma NoFallback(provider: Bytes, twilio: Option<Sender>, hardware: Option<Sender>)
    ensures provider == Ascii("twilio") && twilio.None? ==> RouteFor(provider, twilio, hardware) == NoSender
    ensures provider == Ascii("hardware") && hardware.None? ==> RouteFor(provider, twilio, hardware) == NoSender
    ensures provider != Ascii("twilio") && provider != Ascii("hardware") ==> RouteFor(provider, twilio, hardware) == NoSender
  {
  }

  /** The jobs of a dispatch record, in order. */
  function JobsOf(log: seq<Dispatch>): (jobs: seq<Job>)
    ensures |jobs| == |log|
    ensures forall i :: 0 <= i < |log| ==> jobs[i] == log[i].job
  {
    seq(|log|, i requires 0 <= i < |log| => log[i].job)
  }

  /** SMSQueue. `buffer` is the channel's content, oldest first; `dispatched`
      records every turn of the worker; the ghost `sent` is every job ever handed to
      Send. The invariant ties them: what was dispatched, followed by what is still
      buffered, is exactly what was sent, in the same order. */
  class SMSQueue {
    var buffer: seq<Job>
    const capacity: nat
    var provider: Bytes
    var hardwareSend: Option<Sender>
    var twilioSend: Option<Sender>
    var state: Lifecycle
    var dispatched: seq<Dispatch>
    ghost var sent: seq<Job>

    ghost predicate Valid()
      reads this
    {
      && |buffer| <= capacity
      && JobsOf(dispatched) + buffer == sent
    }

    /** NewSMSQueue: an empty buffer of `bufferSize` places, no senders, no provider. */
    constructor (bufferSize: nat)
      ensures Valid()
      ensures buffer == [] && capacity == bufferSize
      ensures provider == [] && hardwareSend == None && twilioSend == None
      ensures state == Created && dispatched == [] && sent == []
    {
      buffer, capacity := [], bufferSize;
      provider, hardwareSend, twilioSend := [], None, None;
      state, dispatched, sent := Created, [], [];
    }

    method SetProvider(p: Bytes)
      modifies this`provider
      ensures provider == p
    {
      provider := p;
    }

    method SetHardwareSender(sender: Option<Sender>)
      modifies this`hardwareSend
      ensures hardwareSend == sender
    {
      hardwareSend := sender;
    }

    method SetTwilioSender(sender: Option<Sender>)
      modifies this`twilioSend
      ensures twilioSend == sender
    {
      twilioSend := sender;
    }

    /** Send puts the job at the tail. On a full buffer the Go send blocks until the
        worker makes room, so the step can only be taken while there is room. */
    method Send(job: Job)
      requires Valid() && |buffer| < capacity
      modifies this`buffer, this`sent
      ensures Valid()
      ensures buffer == old(buffer) + [job] && sent == old(sent) + [job]
    {
      buffer := buffer + [job];
      sent := sent + [job];
    }

    /** Start launches the single worker. */
    method Start()
      requires state == Created
      modifies this`state
      ensures state == Running
    {
      state := Running;
    }

    /** One turn of the worker loop: take the oldest job and call the sender the
        provider names, if it is set. `result` is what that sender returns; it is
        only logged, and the job is neither requeued nor offered to the other sender. */
    method WorkerStep(result: Option<Bytes>) returns (d: Dispatch)
      requires Valid() && state == Running && buffer != []
      modifies this`buffer, this`dispatched
      ensures Valid()
      ensures d.job == old(buffer[0]) && buffer == old(buffer[1..])
      ensures d.route == RouteFor(provider, twilioSend, hardwareSend)
      ensures d.failure == if d.route == NoSender then None else result
      ensures dispatched == old(dispatched) + [d]
    {
      var job := buffer[0];
      buffer := buffer[1..];
      if provider == Ascii("twilio") && twilioSend.Some? {
        d := Dispatch(job, ViaTwilio, result);
      } else if provider == Ascii("hardware") && hardwareSend.Some? {
        d := Dispatch(job, ViaHardware, result);
      } else {
        d := Dispatch(job, NoSender, None);
      }
      assert JobsOf(dispatched + [d]) == JobsOf(dispatched) + [job];
      dispatched := dispatched + [d];
    }

    /** Stop closes the stop channel and waits for the worker to exit; a second
        close would panic, so Stop is called at most once. */
    method Stop()
      requires state != Stopped
      modifies this`state
      ensures state == Stopped
    {
      state := Stopped;
    }
  }

  /** FIFO and at most once: the worker's turns took the first jobs ever sent, one
      each, in the order they were sent, and the buffer holds the rest in order. */
  lemma {:induction false} DispatchOrder(q: SMSQueue)
    requires q.Valid()
    ensures |q.dispatched| + |q.buffer| == |q.sent|
    ensures forall i :: 0 <= i < |q.dispatched| ==> q.dispatched[i].job == q.sent[i]
    ensures forall i :: 0 <= i < |q.buffer| ==> q.buffer[i] == q.sent[|q.dispatched| + i]
  {
    var jobs := JobsOf(q.dispatched);
    assert forall i :: 0 <= i < |q.dispatched| ==> q.sent[i] == (jobs + q.buffer)[i];
    assert forall i :: 0 <= i < |q.buffer| ==> q.buffer[i] == (jobs + q.buffer)[|jobs| + i];
  }
}
