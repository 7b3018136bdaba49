/** The objects of emitter.py behind the span model: a content dict is an object of its own, which a
    span shares with whoever passed it in and with its END event. */
module SpanObjects {
  import opened Basics
  import opened Spans

  class Content {
    var entries: Dict

    constructor (entries: Dict)
      ensures this.entries == entries
    {
      this.entries := entries;
    }
  }

  /** A synchronous exporter: it records what an event contains while export runs. */
  class Exporter {
    var log: seq<Event>

    method Export(event: Event, ok: bool)
      modifies this
      ensures log == old(log) + if ok then [event] else []
    {
      if ok {
        log := log + [event];
      }
    }
  }

  /** Setting the entries one by one adds the call's entries, those of `d` last. */
  lemma {:induction false} Outcome(c: Dict, error: string, d: Dict)
    ensures c["success" := Flag(true)] + d == c + Delta(Call.Success(d))
    ensures c["success" := Flag(false)]["error" := Text(error)] + d == c + Delta(Call.Fail(error, d))
  {
  }

  class DurationSpan {
    const id: nat
    const name: string
    const content: Content
    const exporter: Exporter
    var begun: bool
    var ended: bool

    ghost function Abstract(): (sp: Span)
      reads this, content
    {
      Span(id, name, content.entries, begun, ended)
    }

    /** `content or {}`: a non-empty dict is adopted as it is, an empty one is replaced. */
    constructor (id: nat, name: string, given: Option<Content>, exporter: Exporter)
      ensures Abstract() == Span(id, name, if given.Some? then given.value.entries else map[], false, false)
      ensures this.exporter == exporter
      ensures if given.Some? && given.value.entries != map[] then content == given.value else fresh(content)
    {
      this.id := id;
      this.name := name;
      this.exporter := exporter;
      begun := false;
      ended := false;
      if given.Some? && given.value.entries != map[] {
        content := given.value;
      } else {
        var empty := new Content(map[]);
        content := empty;
      }
    }

    method Begin(ok: bool)
      modifies this, exporter
      ensures Abstract() == After(old(Abstract()), Call.Begin)
      ensures exporter.log == old(exporter.log) + Emits(old(Abstract()), Invocation(Call.Begin, ok))
    {
      if begun {
        return;
      }
      begun := true;
      exporter.Export(Event(id, name, BEGIN, content.entries), ok);
    }

    method End(ok: bool)
      modifies this, exporter
      ensures Abstract() == After(old(Abstract()), Call.End)
      ensures exporter.log == old(exporter.log) + Emits(old(Abstract()), Invocation(Call.End, ok))
    {
      if ended || !begun {
        return;
      }
      ended := true;
      exporter.Export(Event(id, name, END, content.entries), ok);
    }

    method ExtraArgs(d: Dict)
      modifies content
      ensures Abstract() == After(old(Abstract()), Extra(d))
    {
      if ended {
        return;
      }
      content.entries := content.entries + d;
    }

    method Success(d: Dict, ok: bool)
      modifies this, content, exporter
      ensures Abstract() == After(old(Abstract()), Call.Success(d))
      ensures exporter.log == old(exporter.log) + Emits(old(Abstract()), Invocation(Call.Success(d), ok))
    {
      Outcome(content.entries, "", d);
      content.entries := content.entries["success" := Flag(true)];
      content.entries := content.entries + d;
      End(ok);
    }

    method Fail(error: string, d: Dict, ok: bool)
      modifies this, content, exporter
      ensures Abstract() == After(old(Abstract()), Call.Fail(error, d))
      ensures exporter.log == old(exporter.log) + Emits(old(Abstract()), Invocation(Call.Fail(error, d), ok))
    {
      Outcome(content.entries, error, d);
      content.entries := content.entries["success" := Flag(false)];
      content.entries := content.entries["error" := Text(error)];
      content.entries := content.entries + d;
      End(ok);
    }

    /** None is the stub that an unbegun or ended span returns. The sub-span has its own dict. */
    method MakeStage(stage: string, extra: Dict, newId: nat) returns (child: Option<DurationSpan>)
      ensures child.Some? <==> begun && !ended
      ensures child.Some? ==>
                && fresh(child.value) && fresh(child.value.content)
                && child.value.exporter == exporter
                && child.value.Abstract() == Span(newId, name + "#" + stage, content.entries + extra, false, false)
    {
      if ended || !begun {
        return None;
      }
      var entries := content.entries + extra;
      var copy := new Content(entries);
      var span := new DurationSpan(newId, name + "#" + stage, Some(copy), exporter);
      child := Some(span);
    }
  }
}
