/** Messages on the heap: byte slices and header maps are shared by reference
    (pkg/broker/broker.go:80-168). */
module Messages {
  import opened Optional
  type byte = x: int | 0 <= x < 256

  /** What a message says, as values; a nil slice reads as no bytes. */
  datatype Content = Content(id: string, topic: string, key: seq<byte>, value: seq<byte>,
                             headers: Option<map<string, string>>, timestamp: int)

  function WithHeader(c: Content, name: string, text: string): Content {
    c.(headers := Some((if c.headers.None? then map[] else c.headers.value)[name := text]))
  }

  /** A Go map: a reference to its entries. */
  class HeaderMap {
    var entries: map<string, string>

    constructor ()
      ensures entries == map[]
    {
      entries := map[];
    }
  }

  ghost function Bytes(a: array?<byte>): seq<byte>
    reads a
  {
    if a == null then [] else a[..]
  }

  class Message {
    var id: string
    var topic: string
    var key: array?<byte>
    var value: array?<byte>
    var headers: HeaderMap?
    var timestamp: int

    /** The objects whose mutation changes this message. */
    ghost function Footprint(): set<object>
      reads this
    {
      {this as object}
      + (if key == null then {} else {key as object})
      + (if value == null then {} else {value as object})
      + (if headers == null then {} else {headers as object})
    }

    ghost function Headers(): Option<map<string, string>>
      reads this, headers
    {
      if headers == null then None else Some(headers.entries)
    }

    ghost function View(): Content
      reads this, key, value, headers
    {
      Content(id, topic, Bytes(key), Bytes(value), Headers(), timestamp)
    }

    /** `NewMessage`: the value is kept by reference. */
    constructor (id: string, topic: string, value: array?<byte>, now: int)
      ensures this.value == value && key == null && headers != null && fresh(headers)
      ensures View() == Content(id, topic, [], Bytes(value), Some(map[]), now)
    {
      var h := new HeaderMap();
      this.id, this.topic, this.key, this.value, this.headers, this.timestamp := id, topic, null, value, h, now;
    }

    constructor Raw(id: string, topic: string, key: array<byte>, value: array<byte>, timestamp: int)
      ensures this.id == id && this.topic == topic && this.key == key && this.value == value
      ensures headers == null && this.timestamp == timestamp
    {
      this.id, this.topic, this.key, this.value, this.headers, this.timestamp := id, topic, key, value, null, timestamp;
    }

    /** A deep copy: same contents, nothing shared with any existing object, parts distinct. */
    method Clone() returns (clone: Message)
      ensures fresh(clone) && fresh(clone.Footprint())
      ensures clone.View() == View()
      ensures clone.key != null && clone.value != null && clone.key != clone.value
      ensures clone.headers == null <==> headers == null
    {
      var k := CopyBytes(key);
      var v := CopyBytes(value);
      clone := new Message.Raw(id, topic, k, v, timestamp);
      if headers != null {
        clone.headers := CopyHeaders(headers);
      }
    }

    /** The header then reads as set, and every other name as before. */
    method SetHeader(name: string, text: string)
      modifies this`headers, headers
      ensures GetHeader(name) == text
      ensures forall other :: other != name ==> GetHeader(other) == old(GetHeader(other))
      ensures headers != null && (headers == old(headers) || (old(headers) == null && fresh(headers)))
      ensures View() == WithHeader(old(View()), name, text)
    {
      if headers == null {
        headers := new HeaderMap();
      }
      headers.entries := headers.entries[name := text];
    }

    ghost predicate Carries(name: string, text: string)
      reads this, headers
    {
      match Headers()
      case None => false
      case Some(m) => name in m && m[name] == text
    }

    /** Only headers the message carries are ever answered, and all of them; a missing header cannot be
        told from an empty one. */
    function GetHeader(name: string): (text: string)
      reads this, headers
      ensures forall t :: t != "" ==> (text == t <==> Carries(name, t))
    {
      if headers == null then ""
      else if name in headers.entries then headers.entries[name] else ""
    }
  }

  /** `make` and `copy`: always a new slice, empty for nil. */
  method CopyBytes(a: array?<byte>) returns (b: array<byte>)
    ensures fresh(b) && b[..] == Bytes(a)
  {
    if a == null {
      b := new byte[0];
      return;
    }
    b := new byte[a.Length];
    for i := 0 to a.Length
      invariant b[..i] == a[..i]
    {
      b[i] := a[i];
    }
  }

  method CopyHeaders(h: HeaderMap) returns (c: HeaderMap)
    ensures fresh(c) && c.entries == h.entries
  {
    c := new HeaderMap();
    var todo := h.entries.Keys;
    while todo != {}
      invariant todo <= h.entries.Keys
      invariant c.entries.Keys == h.entries.Keys - todo
      invariant forall k :: k in c.entries ==> c.entries[k] == h.entries[k]
      decreases todo
    {
      var k :| k in todo;
      c.entries := c.entries[k := h.entries[k]];
      todo := todo - {k};
    }
  }
}
