/** The parser as the source runs it: one cursor over a fixed text, moved by every call. */
module JsonCursor {
  import opened Json
  import opened Wrappers

  class Cursor {
    const json: string
    var idx: nat

    constructor (json: string)
      ensures this.json == json && idx == 0
    {
      this.json := json;
      idx := 0;
    }

    method ReadString() returns (o: Outcome)
      modifies this`idx
      ensures o == ParseString(json, old(idx), "")
      ensures Ended(o) ==> idx == o.next
    {
      var str := "";
      while idx < |json|
        invariant idx >= old(idx)
        invariant ParseString(json, idx, str) == ParseString(json, old(idx), "")
      {
        if json[idx] == QUOTE && (|str| == 0 || (|str| > 0 && str[|str| - 1] != BACKSLASH)) {
          idx := idx + 1;
          return Done(Str(str), idx);
        } else {
          str := str + [json[idx]];
          idx := idx + 1;
        }
      }
      return Done(Err, idx);
    }

    method ReadNum() returns (o: Outcome)
      modifies this`idx
      ensures o == ParseNum(json, old(idx), "")
      ensures Ended(o) ==> idx == o.next
    {
      var str := "";
      while idx < |json|
        invariant idx >= old(idx) && AllDigits(str)
        invariant ParseNum(json, idx, str) == ParseNum(json, old(idx), "")
      {
        if IsDigit(json[idx]) {
          str := str + [json[idx]];
          idx := idx + 1;
        } else {
          break;
        }
      }
      var num := Value(str);
      return if num > INT_MAX then Throw else Done(Num(num, str), idx);
    }

    method ReadList() returns (o: Outcome)
      modifies this`idx
      ensures o == ParseList(json, old(idx), Some([]))
      ensures Ended(o) ==> idx == o.next
      decreases Left(json, idx), 1
    {
      var list: Option<seq<JsonVal>> := Some([]);
      while idx < |json|
        invariant idx >= old(idx)
        invariant ParseList(json, idx, list) == ParseList(json, old(idx), Some([]))
        decreases Left(json, idx)
      {
        if json[idx] == ']' {
          idx := idx + 1;
          return ListOf(list, idx);
        }
        var here := idx;
        var item := ReadValue();
        if !Ended(item) {
          return item;
        }
        if idx == here {
          return Hang;
        }
        list := Push(list, Content(item));
      }
      return if idx > |json| then Throw else Done(Err, idx);
    }

    method ReadMap() returns (o: Outcome)
      modifies this`idx
      ensures o == ParseMap(json, old(idx), NO_ENTRIES)
      ensures Ended(o) ==> idx == o.next
      decreases Left(json, idx), 1
    {
      var e := NO_ENTRIES;
      while idx < |json|
        invariant idx >= old(idx)
        invariant ParseMap(json, idx, e) == ParseMap(json, old(idx), NO_ENTRIES)
        decreases Left(json, idx)
      {
        if json[idx] == '}' {
          idx := idx + 1;
          return MapOf(e, idx);
        }
        var here := idx;
        var item := ReadValue();
        if !Ended(item) {
          return item;
        }
        if idx == here {
          return Hang;
        }
        e := Store(e, Content(item));
      }
      return if idx > |json| then Throw else Done(Err, idx);
    }

    method ReadValue() returns (o: Outcome)
      modifies this`idx
      ensures o == Parse(json, old(idx))
      ensures Ended(o) ==> idx == o.next
      decreases Left(json, idx), 0
    {
      while idx < |json|
        invariant idx >= old(idx)
        invariant Parse(json, idx) == Parse(json, old(idx))
        decreases Left(json, idx)
      {
        o := Done(Err, idx);
        if json[idx] == QUOTE {
          idx := idx + 1;
          o := ReadString();
        } else if IsDigit(json[idx]) {
          o := ReadNum();
        } else if json[idx] == '[' {
          idx := idx + 1;
          o := ReadList();
        } else if json[idx] == '{' {
          idx := idx + 1;
          o := ReadMap();
        } else if json[idx] == ']' || json[idx] == '}' {
          return;
        }
        if !o.Done? || !o.value.Err? {
          return;
        }
        idx := idx + 1;
      }
      return Done(Err, idx);
    }
  }

  /** `JsonVal::parse(json)`. */
  method ParseText(json: string) returns (o: Outcome)
    ensures o == Parse(json, 0)
  {
    var c := new Cursor(json);
    o := c.ReadValue();
  }
}
