/**
 * An entity object as the services and controllers handle it: its class is
 * fixed, its property values are updated in place through the bean setters.
 */
module EntityObject {
  import opened Common

  class Entity {
    const info: ClassInfo
    var props: map<string, Value>

    /** The entity's current state as a value. */
    function State(): EntityState
      reads this
    {
      EntityState(info, props)
    }

    constructor (s: EntityState)
      ensures State() == s
    {
      info := s.info;
      props := s.props;
    }

    /** setProperty(name, value): the one property now holds the value. */
    method SetProperty(name: string, v: Value)
      modifies this
      ensures props == old(props)[name := v]
    {
      props := props[name := v];
    }
  }
}
